/** What the monitoring loop guarantees over whole runs. */
module MonitorRuns {
  import opened Prelude
  import opened Percent
  import opened SidecarConfig
  import opened Collector
  import opened Monitor
  import opened Cooldown
  import Kubelet

  function Samples(config: Config, ticks: seq<Tick>): (s: seq<Sample>)
    ensures |s| == |ticks|
  {
    seq(|ticks|, i requires 0 <= i < |ticks| => Sample(ticks[i].now, CPUHot(config, ticks[i])))
  }

  ghost predicate OrderedTicks(ticks: seq<Tick>) {
    forall i, j | 0 <= i < j < |ticks| :: ticks[i].now <= ticks[j].now
  }

  predicate StartsCPU(config: Config, s: State, t: Tick) {
    CPUHot(config, t) && Ready(s.last, t.now)
  }

  lemma CPUPart(config: Config, s: State, k: nat, t: Tick)
    ensures var r := Step(config, s, k, t);
            if CPUHot(config, t) && Ready(s.last, t.now) then r.cpu == s.cpu + [k] && r.last == Some(t.now)
            else r.cpu == s.cpu && r.last == s.last
    ensures Step(config, s, k, t).heap == if MemoryHot(config, t) then s.heap + [k] else s.heap
  {
  }

  /** The loop's CPU attempts are the greedy picks and its `lastCPUTime` is the last of them. */
  lemma {:induction false} LoopIsGreedy(config: Config, initial: Counters, ticks: seq<Tick>)
    ensures var s := After(config, initial, ticks);
            s.cpu == Greedy(Samples(config, ticks)) && s.last == LastTime(Samples(config, ticks), s.cpu)
  {
    if ticks == [] {
    } else {
      var n := |ticks| - 1;
      LoopIsGreedy(config, initial, ticks[..n]);
      var samples, s := Samples(config, ticks), After(config, initial, ticks[..n]);
      assert samples[..n] == Samples(config, ticks[..n]);
      CPUPart(config, s, n, ticks[n]);
      assert LastTime(samples, s.cpu) == LastTime(samples[..n], s.cpu);
    }
  }

  /** Heap attempts know no cooldown: one at every tick over the memory threshold, and no other. */
  lemma {:induction false} HeapAttemptsExactly(config: Config, initial: Counters, ticks: seq<Tick>)
    ensures forall i :: i in After(config, initial, ticks).heap <==> 0 <= i < |ticks| && MemoryHot(config, ticks[i])
    ensures Increasing(After(config, initial, ticks).heap)
  {
    if ticks == [] {
    } else {
      var n := |ticks| - 1;
      HeapAttemptsExactly(config, initial, ticks[..n]);
      CPUPart(config, After(config, initial, ticks[..n]), n, ticks[n]);
    }
  }

  predicate Before(a: Attempt, b: Attempt) {
    a.tick < b.tick || (a.tick == b.tick && a.kind == CPUProfile && b.kind == HeapProfile)
  }

  ghost predicate InOrder(log: seq<Attempt>) {
    forall i, j | 0 <= i < j < |log| :: Before(log[i], log[j])
  }

  lemma InOrderExtends(log: seq<Attempt>, a: Attempt)
    requires InOrder(log) && forall i | 0 <= i < |log| :: Before(log[i], a)
    ensures InOrder(log + [a])
  {
  }

  /** Attempts are made in the order of their ticks, and within one tick the CPU attempt comes first. */
  lemma {:induction false} AttemptsInOrder(config: Config, initial: Counters, ticks: seq<Tick>)
    ensures forall i | 0 <= i < |After(config, initial, ticks).log| ::
              After(config, initial, ticks).log[i].tick < |ticks|
    ensures InOrder(After(config, initial, ticks).log)
  {
    if ticks == [] {
    } else {
      var n := |ticks| - 1;
      AttemptsInOrder(config, initial, ticks[..n]);
      var s := After(config, initial, ticks[..n]);
      var log := if StartsCPU(config, s, ticks[n]) then s.log + [Attempt(CPUProfile, n)] else s.log;
      InOrderExtends(s.log, Attempt(CPUProfile, n));
      if MemoryHot(config, ticks[n]) {
        InOrderExtends(log, Attempt(HeapProfile, n));
      }
    }
  }

  /** The ticks at which a run starts CPU attempts. */
  function Attempted(config: Config, initial: Counters, ticks: seq<Tick>): set<nat> {
    set i | i in After(config, initial, ticks).cpu
  }

  lemma AttemptedIsChosen(config: Config, initial: Counters, ticks: seq<Tick>)
    ensures Attempted(config, initial, ticks) == Chosen(Samples(config, ticks))
    ensures |Attempted(config, initial, ticks)| == |After(config, initial, ticks).cpu|
    ensures forall i | i in Attempted(config, initial, ticks) :: i < |ticks| && CPUHot(config, ticks[i])
  {
    LoopIsGreedy(config, initial, ticks);
    GreedyIncreasing(Samples(config, ticks));
    assert forall i | i in Attempted(config, initial, ticks) :: i in After(config, initial, ticks).cpu;
    forall i | i in Attempted(config, initial, ticks) ensures CPUHot(config, ticks[i]) {
      PicksAreHot(Samples(config, ticks), i);
    }
  }

  /** A choice of ticks the cooldown would allow: over the threshold, pairwise more than five minutes
      apart. */
  ghost predicate Allowed(config: Config, ticks: seq<Tick>, a: set<nat>) {
    && (forall i | i in a :: i < |ticks| && CPUHot(config, ticks[i]))
    && (forall i, j | i in a && j in a && i < j :: ticks[j].now - ticks[i].now > 300_000_000_000)
  }

  lemma AllowedMeansSpaced(config: Config, ticks: seq<Tick>, a: set<nat>)
    ensures Allowed(config, ticks, a) <==> Hot(Samples(config, ticks), a) && Spaced(Samples(config, ticks), a)
  {
  }

  /** No allowed choice of ticks has more members than the loop has CPU attempts. */
  lemma LoopIsOptimal(config: Config, initial: Counters, ticks: seq<Tick>, a: set<nat>)
    requires OrderedTicks(ticks) && Allowed(config, ticks, a)
    ensures |a| <= |Attempted(config, initial, ticks)| == |After(config, initial, ticks).cpu|
  {
    AttemptedIsChosen(config, initial, ticks);
    AllowedMeansSpaced(config, ticks, a);
    GreedyIsOptimal(Samples(config, ticks), a);
  }

  /** Tick `k` comes at most five minutes after an earlier tick of `a`. */
  ghost predicate CoolingDown(ticks: seq<Tick>, a: set<nat>, k: nat) {
    exists p | p in a :: p < k < |ticks| && ticks[k].now - ticks[p].now <= 300_000_000_000
  }

  lemma CoveredMeansCoolingDown(config: Config, ticks: seq<Tick>, a: set<nat>, k: nat)
    requires Allowed(config, ticks, a) && k < |ticks|
    ensures Hot(Samples(config, ticks), a)
    ensures CoveredAt(Samples(config, ticks), a, k) <==> CoolingDown(ticks, a, k)
  {
  }

  /** The attempted ticks are the only allowed choice that leaves out no hot tick except within five
      minutes after a chosen one. */
  lemma LoopIsTheMaximalChoice(config: Config, initial: Counters, ticks: seq<Tick>, a: set<nat>)
    requires OrderedTicks(ticks)
    ensures a == Attempted(config, initial, ticks)
            <==> Allowed(config, ticks, a)
                 && forall k: nat | k < |ticks| && CPUHot(config, ticks[k]) && k !in a :: CoolingDown(ticks, a, k)
  {
    var s := Samples(config, ticks);
    AttemptedIsChosen(config, initial, ticks);
    GreedyIsUnique(s, a);
    AllowedMeansSpaced(config, ticks, a);
    if Allowed(config, ticks, a) {
      forall k: nat | k < |ticks| ensures CoveredAt(s, a, k) <==> CoolingDown(ticks, a, k) {
        CoveredMeansCoolingDown(config, ticks, a, k);
      }
      assert Covered(s, a)
        <==> forall k: nat | k < |ticks| && CPUHot(config, ticks[k]) && k !in a :: CoolingDown(ticks, a, k);
    }
  }

  /** A tick starts a CPU attempt exactly when it is over the threshold and no tick at most 300 seconds
      before it started one. */
  lemma TickAttemptsExactly(config: Config, initial: Counters, ticks: seq<Tick>, k: nat)
    requires OrderedTicks(ticks) && k < |ticks|
    ensures k in Attempted(config, initial, ticks)
            <==> CPUHot(config, ticks[k])
                 && forall p | p in Attempted(config, initial, ticks) && p < k ::
                      ticks[k].now - ticks[p].now > 300_000_000_000
  {
    var a := Attempted(config, initial, ticks);
    LoopIsTheMaximalChoice(config, initial, ticks, a);
    if CPUHot(config, ticks[k]) && k !in a {
      assert CoolingDown(ticks, a, k);
    }
  }

  /** Raising the CPU threshold never gives more CPU attempts on the same run. */
  lemma HigherThresholdFewerAttempts(config: Config, higher: int, initial: Counters, ticks: seq<Tick>)
    requires OrderedTicks(ticks) && higher >= config.cpuThreshold
    ensures |After(config.(cpuThreshold := higher), initial, ticks).cpu| <= |After(config, initial, ticks).cpu|
  {
    var raised := config.(cpuThreshold := higher);
    LoopIsGreedy(config, initial, ticks);
    LoopIsGreedy(raised, initial, ticks);
    FewerHotFewerProfiles(Samples(raised, ticks), Samples(config, ticks));
  }

  /** Any k >= 2 CPU attempts inside a window, failed ones included, take more than (k - 1) times
      five minutes of it. */
  lemma AttemptsAreRateLimited(
    config: Config, initial: Counters, ticks: seq<Tick>, a: set<nat>, from: int, until: int)
    requires OrderedTicks(ticks) && |a| >= 2 && a <= Attempted(config, initial, ticks)
    requires forall i | i in a :: i < |ticks| && from <= ticks[i].now <= until
    ensures (|a| - 1) * 300_000_000_000 < until - from
  {
    AttemptedIsChosen(config, initial, ticks);
    RateBound(Samples(config, ticks), a, from, until);
  }

  lemma SamplesKeepGaps(config: Config, ticks: seq<Tick>, period: int)
    requires forall i | 0 < i < |ticks| :: ticks[i].now - ticks[i - 1].now <= period
    ensures forall i | 0 < i < |ticks| :: Samples(config, ticks)[i].now - Samples(config, ticks)[i - 1].now <= period
  {
  }

  /** Under constant overload each attempt is followed by another within five minutes and one tick
      period, as long as the run lasts past the cooldown. */
  lemma OverloadIsSampled(config: Config, initial: Counters, ticks: seq<Tick>, period: int, p: nat) returns (q: nat)
    requires OrderedTicks(ticks) && p in Attempted(config, initial, ticks) && p < |ticks|
    requires forall i | 0 <= i < |ticks| :: CPUHot(config, ticks[i])
    requires forall i | 0 < i < |ticks| :: ticks[i].now - ticks[i - 1].now <= period
    requires ticks[|ticks| - 1].now - ticks[p].now > 300_000_000_000
    ensures p < q < |ticks| && q in Attempted(config, initial, ticks)
    ensures 300_000_000_000 < ticks[q].now - ticks[p].now <= 300_000_000_000 + period
    ensures forall i | p < i < q :: i !in Attempted(config, initial, ticks)
  {
    AttemptedIsChosen(config, initial, ticks);
    SamplesKeepGaps(config, ticks, period);
    q := SustainedOverload(Samples(config, ticks), period, p);
  }

  // ---- stuttering and independence ----

  function Successful(ticks: seq<Tick>): seq<Tick> {
    if ticks == [] then []
    else
      var n := |ticks| - 1;
      Successful(ticks[..n]) + (if ticks[n].reading.Some? then [ticks[n]] else [])
  }

  function Picked(ticks: seq<Tick>, p: seq<nat>): (r: seq<Tick>)
    requires forall k | 0 <= k < |p| :: p[k] < |ticks|
  {
    seq(|p|, k requires 0 <= k < |p| => ticks[p[k]])
  }

  /** A tick whose reading failed changes nothing. */
  lemma FailedStep(config: Config, s: State, k: nat, t: Tick)
    requires t.reading.None?
    ensures Step(config, s, k, t) == s
  {
  }

  /** A tick's effect on the state does not depend on its index or on earlier attempts' indices. */
  lemma SameStep(config: Config, s: State, k: nat, r: State, j: nat, t: Tick)
    requires s.last == r.last && s.counters == r.counters
    ensures var s', r' := Step(config, s, k, t), Step(config, r, j, t);
            && s'.last == r'.last && s'.counters == r'.counters
            && (s'.cpu == s.cpu <==> r'.cpu == r.cpu) && (s'.heap == s.heap <==> r'.heap == r.heap)
  {
  }

  lemma PickedStep(ticks: seq<Tick>, p: seq<nat>, q: seq<nat>)
    requires ticks != [] && forall k | 0 <= k < |p| :: p[k] < |ticks| - 1
    requires q == p || q == p + [|ticks| - 1]
    ensures forall k | 0 <= k < |q| :: q[k] < |ticks|
    ensures Picked(ticks, q) == Picked(ticks[..|ticks| - 1], p) + (if q == p then [] else [ticks[|ticks| - 1]])
  {
  }

  /** Ticks whose reading failed can be deleted: the attempts made, the metrics and `lastCPUTime` stay
      the same. */
  lemma {:induction false} FailedTicksDoNotMatter(config: Config, initial: Counters, ticks: seq<Tick>)
    ensures var s, t := After(config, initial, ticks), After(config, initial, Successful(ticks));
            && s.last == t.last && s.counters == t.counters
            && Picked(ticks, s.cpu) == Picked(Successful(ticks), t.cpu)
            && Picked(ticks, s.heap) == Picked(Successful(ticks), t.heap)
  {
    if ticks == [] {
    } else {
      var n := |ticks| - 1;
      var front, tick := ticks[..n], ticks[n];
      var s, t := After(config, initial, front), After(config, initial, Successful(front));
      FailedTicksDoNotMatter(config, initial, front);
      var s', t' := After(config, initial, ticks), After(config, initial, Successful(ticks));
      assert s' == Step(config, s, n, tick);
      PickedStep(ticks, s.cpu, s'.cpu);
      PickedStep(ticks, s.heap, s'.heap);
      if tick.reading.None? {
        FailedStep(config, s, n, tick);
        assert Successful(ticks) == Successful(front);
      } else {
        var kept := Successful(ticks);
        assert kept[..|kept| - 1] == Successful(front);
        assert t' == Step(config, t, |kept| - 1, tick);
        SameStep(config, s, n, t, |kept| - 1, tick);
        PickedStep(kept, t.cpu, t'.cpu);
        PickedStep(kept, t.heap, t'.heap);
      }
    }
  }

  /** Memory readings and the outcomes of attempts never change which ticks start a CPU attempt. */
  lemma CPUAttemptsIgnoreTheRest(
    config: Config, initial: Counters, ticks: seq<Tick>, others: seq<Tick>)
    requires |ticks| == |others|
    requires forall i | 0 <= i < |ticks| ::
               && ticks[i].now == others[i].now
               && ticks[i].reading.Some? == others[i].reading.Some?
               && (ticks[i].reading.Some? ==> ticks[i].reading.value.cpu == others[i].reading.value.cpu)
    ensures After(config, initial, ticks).cpu == After(config, initial, others).cpu
    ensures After(config, initial, ticks).last == After(config, initial, others).last
  {
    LoopIsGreedy(config, initial, ticks);
    LoopIsGreedy(config, initial, others);
    assert Samples(config, ticks) == Samples(config, others);
  }

  // ---- conservation ----

  const ZERO: Counters := Counters(0, 0, 0, 0, 0, 0)

  function CPUAnswers(ticks: seq<Tick>): (r: seq<Answers>)
    ensures |r| == |ticks|
  {
    seq(|ticks|, i requires 0 <= i < |ticks| => ticks[i].cpuAnswers)
  }

  function HeapAnswers(ticks: seq<Tick>): (r: seq<Answers>)
    ensures |r| == |ticks|
  {
    seq(|ticks|, i requires 0 <= i < |ticks| => ticks[i].heapAnswers)
  }

  /** The indices of `starts` whose attempt has answers with a property. */
  function Where(answers: seq<Answers>, starts: seq<nat>, p: Answers -> bool): set<nat> {
    set i | i in starts && i < |answers| && p(answers[i])
  }

  lemma WhereExtends(answers: seq<Answers>, starts: seq<nat>, extended: seq<nat>, started: bool, p: Answers -> bool)
    requires answers != [] && forall k | 0 <= k < |starts| :: starts[k] < |answers| - 1
    requires extended == if started then starts + [|answers| - 1] else starts
    ensures var n := |answers| - 1;
            |Where(answers, extended, p)| == |Where(answers[..n], starts, p)| + Bit(started && p(answers[n]))
  {
    var n := |answers| - 1;
    var before := Where(answers[..n], starts, p);
    assert Where(answers, extended, p) == before + (if started && p(answers[n]) then {n} else {});
    assert n !in before;
  }

  /** The CPU attempts of a run whose answers satisfy a property. */
  function CPUWhere(config: Config, ticks: seq<Tick>, p: Answers -> bool): set<nat> {
    Where(CPUAnswers(ticks), After(config, ZERO, ticks).cpu, p)
  }

  function HeapWhere(config: Config, ticks: seq<Tick>, p: Answers -> bool): set<nat> {
    Where(HeapAnswers(ticks), After(config, ZERO, ticks).heap, p)
  }

  function HotTicks(config: Config, ticks: seq<Tick>): set<nat> {
    set i: nat | i < |ticks| && CPUHot(config, ticks[i])
  }

  lemma CPUTally(config: Config, ticks: seq<Tick>, p: Answers -> bool)
    requires ticks != []
    ensures var n := |ticks| - 1;
            |CPUWhere(config, ticks, p)| == |CPUWhere(config, ticks[..n], p)|
              + Bit(StartsCPU(config, After(config, ZERO, ticks[..n]), ticks[n]) && p(ticks[n].cpuAnswers))
  {
    var n := |ticks| - 1;
    var s := After(config, ZERO, ticks[..n]);
    CPUPart(config, s, n, ticks[n]);
    assert CPUAnswers(ticks)[..n] == CPUAnswers(ticks[..n]);
    WhereExtends(CPUAnswers(ticks), s.cpu, After(config, ZERO, ticks).cpu, StartsCPU(config, s, ticks[n]), p);
  }

  lemma HeapTally(config: Config, ticks: seq<Tick>, p: Answers -> bool)
    requires ticks != []
    ensures var n := |ticks| - 1;
            |HeapWhere(config, ticks, p)| == |HeapWhere(config, ticks[..n], p)|
              + Bit(MemoryHot(config, ticks[n]) && p(ticks[n].heapAnswers))
  {
    var n := |ticks| - 1;
    var s := After(config, ZERO, ticks[..n]);
    CPUPart(config, s, n, ticks[n]);
    assert HeapAnswers(ticks)[..n] == HeapAnswers(ticks[..n]);
    WhereExtends(HeapAnswers(ticks), s.heap, After(config, ZERO, ticks).heap, MemoryHot(config, ticks[n]), p);
  }

  lemma CounterStep(config: Config, s: State, k: nat, t: Tick)
    ensures var c, d := s.counters, Step(config, s, k, t).counters;
            var cpu, heap := StartsCPU(config, s, t), MemoryHot(config, t);
            && d.exceededCPU == c.exceededCPU + Bit(CPUHot(config, t))
            && d.exceededMemory == c.exceededMemory + Bit(heap)
            && d.generatedCPU == c.generatedCPU + Bit(cpu && Collected(config, t.cpuAnswers))
            && d.generatedHeap == c.generatedHeap + Bit(heap && Collected(config, t.heapAnswers))
            && d.uploaded
               == c.uploaded + Bit(cpu && Stored(config, t.cpuAnswers)) + Bit(heap && Stored(config, t.heapAnswers))
            && d.uploadErrors
               == c.uploadErrors + Bit(cpu && Refused(config, t.cpuAnswers))
                  + Bit(heap && Refused(config, t.heapAnswers))
  {
  }

  lemma HotTicksExtend(config: Config, ticks: seq<Tick>)
    requires ticks != []
    ensures var n := |ticks| - 1;
            |HotTicks(config, ticks)| == |HotTicks(config, ticks[..n])| + Bit(CPUHot(config, ticks[n]))
  {
    var n := |ticks| - 1;
    assert HotTicks(config, ticks) == HotTicks(config, ticks[..n]) + (if CPUHot(config, ticks[n]) then {n} else {});
  }

  lemma {:induction false} HotTicksCounted(config: Config, ticks: seq<Tick>)
    ensures After(config, ZERO, ticks).counters.exceededCPU == |HotTicks(config, ticks)|
    ensures |After(config, ZERO, ticks).cpu| <= |HotTicks(config, ticks)|
  {
    if ticks == [] {
      assert HotTicks(config, ticks) == {};
    } else {
      var n := |ticks| - 1;
      HotTicksCounted(config, ticks[..n]);
      var s := After(config, ZERO, ticks[..n]);
      CounterStep(config, s, n, ticks[n]);
      CPUPart(config, s, n, ticks[n]);
      HotTicksExtend(config, ticks);
    }
  }

  lemma {:induction false} HeapAttemptsCounted(config: Config, ticks: seq<Tick>)
    ensures After(config, ZERO, ticks).counters.exceededMemory == |After(config, ZERO, ticks).heap|
  {
    if ticks == [] {
    } else {
      var n := |ticks| - 1;
      HeapAttemptsCounted(config, ticks[..n]);
      CounterStep(config, After(config, ZERO, ticks[..n]), n, ticks[n]);
      CPUPart(config, After(config, ZERO, ticks[..n]), n, ticks[n]);
    }
  }

  /** Profile counters: over every run each equals the number of attempts that reached its stage. */
  lemma {:induction false} ProfileCounters(config: Config, ticks: seq<Tick>)
    ensures var c := After(config, ZERO, ticks).counters;
            && c.generatedCPU == |CPUWhere(config, ticks, a => Collected(config, a))|
            && c.generatedHeap == |HeapWhere(config, ticks, a => Collected(config, a))|
            && c.uploaded == |CPUWhere(config, ticks, a => Stored(config, a))|
                             + |HeapWhere(config, ticks, a => Stored(config, a))|
            && c.uploadErrors == |CPUWhere(config, ticks, a => Refused(config, a))|
                                 + |HeapWhere(config, ticks, a => Refused(config, a))|
  {
    if ticks == [] {
    } else {
      var n := |ticks| - 1;
      ProfileCounters(config, ticks[..n]);
      var s := After(config, ZERO, ticks[..n]);
      CounterStep(config, s, n, ticks[n]);
      CPUTally(config, ticks, a => Collected(config, a));
      CPUTally(config, ticks, a => Stored(config, a));
      CPUTally(config, ticks, a => Refused(config, a));
      HeapTally(config, ticks, a => Collected(config, a));
      HeapTally(config, ticks, a => Stored(config, a));
      HeapTally(config, ticks, a => Refused(config, a));
    }
  }

  lemma WhereSplits(answers: seq<Answers>, starts: seq<nat>, config: Config)
    ensures |Where(answers, starts, a => Collected(config, a))|
            == |Where(answers, starts, a => Stored(config, a))| + |Where(answers, starts, a => Refused(config, a))|
               + |Where(answers, starts, a => Stranded(config, a))|
  {
    var stored := Where(answers, starts, a => Stored(config, a));
    var refused := Where(answers, starts, a => Refused(config, a));
    var stranded := Where(answers, starts, a => Stranded(config, a));
    assert stored !! refused && (stored + refused) !! stranded;
    assert Where(answers, starts, a => Collected(config, a)) == stored + refused + stranded;
  }

  /** CONSERVATION: every generated profile is uploaded, refused by the store, or stranded before it
      was offered. */
  lemma ProfilesAreConserved(config: Config, ticks: seq<Tick>)
    ensures var c := After(config, ZERO, ticks).counters;
            c.generatedCPU + c.generatedHeap
            == c.uploaded + c.uploadErrors
               + |CPUWhere(config, ticks, a => Stranded(config, a))|
               + |HeapWhere(config, ticks, a => Stranded(config, a))|
  {
    ProfileCounters(config, ticks);
    var s := After(config, ZERO, ticks);
    WhereSplits(CPUAnswers(ticks), s.cpu, config);
    WhereSplits(HeapAnswers(ticks), s.heap, config);
  }

  // ---- object keys ----

  // The longest delay from a tick's time to the naming of its file that keeps all keys apart.
  const MAX_NAMING_DELAY: int := 299_000_000_001

  /** Every CPU attempt names its file at its tick's time or at most `delay` later, on one clock. */
  ghost predicate NamedWithin(config: Config, ticks: seq<Tick>, delay: int) {
    forall i | i in Attempted(config, ZERO, ticks) && i < |ticks| ::
      ticks[i].now <= ticks[i].cpuAnswers.stampNanos <= ticks[i].now + delay
  }

  function CPUKey(config: Config, join: (string, string, string) -> string, t: Tick): string {
    S3Key(config, join, CPUProfile, t.cpuAnswers.stampNanos)
  }

  /** With files named in time, no two CPU profiles of a run share an object key. */
  lemma CPUKeysDistinct(
    config: Config, join: (string, string, string) -> string, ticks: seq<Tick>, i: nat, j: nat)
    requires JoinKeepsNames(config, join)
    requires OrderedTicks(ticks) && NamedWithin(config, ticks, MAX_NAMING_DELAY)
    requires i < j < |ticks| && i in Attempted(config, ZERO, ticks) && j in Attempted(config, ZERO, ticks)
    ensures CPUKey(config, join, ticks[i]) != CPUKey(config, join, ticks[j])
  {
    AttemptedIsChosen(config, ZERO, ticks);
    GreedyIsSpaced(Samples(config, ticks));
    assert Samples(config, ticks)[j].now - Samples(config, ticks)[i].now > COOLDOWN;
    var t, u := ticks[i].cpuAnswers.stampNanos, ticks[j].cpuAnswers.stampNanos;
    assert u - t >= NANOS_PER_SECOND;
    SameKeyExactly(config, join, CPUProfile, t, CPUProfile, u);
  }

  lemma TwoFarHotTicks(config: Config, first: Tick, second: Tick)
    requires CPUHot(config, first) && CPUHot(config, second) && second.now - first.now > COOLDOWN
    ensures After(config, ZERO, [first, second]).cpu == [0, 1]
  {
    var none := Started(ZERO);
    assert [first][..0] == [] && [first, second][..1] == [first];
    assert After(config, ZERO, [first]) == Step(config, none, 0, first);
    CPUPart(config, none, 0, first);
    CPUPart(config, After(config, ZERO, [first]), 1, second);
  }

  /** The delay bound is the best possible: with one nanosecond more some run overwrites a CPU
      profile. */
  lemma LongerDelayCollides(config: Config, join: (string, string, string) -> string, a: Answers)
    returns (ticks: seq<Tick>)
    requires JoinKeepsNames(config, join)
    ensures |ticks| == 2 && OrderedTicks(ticks) && NamedWithin(config, ticks, MAX_NAMING_DELAY + 1)
    ensures After(config, ZERO, ticks).cpu == [0, 1]
    ensures CPUKey(config, join, ticks[0]) == CPUKey(config, join, ticks[1])
  {
    var usage := Some(Kubelet.Usage(Infinite, NaN));
    var first := Tick(999_999_998, usage, a.(stampNanos := 300_000_000_000), a);
    var second := Tick(300_999_999_999, usage, a.(stampNanos := 300_999_999_999), a);
    ticks := [first, second];
    TwoFarHotTicks(config, first, second);
    SameKeyExactly(config, join, CPUProfile, 300_000_000_000, CPUProfile, 300_999_999_999);
  }
}
