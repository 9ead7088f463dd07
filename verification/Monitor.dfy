/**
 The sidecar's monitoring loop.  `After` replays a run of ticks step by step; the method is the loop
 itself, proved to do just that to the process's metrics.
 */
module Monitor {
  import opened Prelude
  import opened Percent
  import opened SidecarConfig
  import opened Collector
  import Cooldown
  import Kubelet

  /** One tick: the time the loop reads, in nanoseconds, the reading (None when it fails), and what
      the outside world would answer to a CPU and to a heap attempt. */
  datatype Tick = Tick(now: int, reading: Option<Kubelet.Usage>, cpuAnswers: Answers, heapAnswers: Answers)

  /** The lookup the loop asks for at each tick. */
  function KubeletConfig(config: Config): Kubelet.Config {
    Kubelet.Config(config.namespace, config.podName, config.targetContainer)
  }

  predicate CPUHot(config: Config, t: Tick) {
    t.reading.Some? && AtLeast(t.reading.value.cpu, config.cpuThreshold)
  }

  predicate MemoryHot(config: Config, t: Tick) {
    t.reading.Some? && AtLeast(t.reading.value.memory, config.memoryThreshold)
  }

  /** `lastCPUTime` (None is the zero time), the metrics, the ticks that started attempts of each kind,
      and all attempts in the order they were started. */
  datatype State = State(
    last: Option<int>, counters: Counters, cpu: seq<nat>, heap: seq<nat>, log: seq<Attempt>)

  function Started(initial: Counters): State {
    State(None, initial, [], [], [])
  }

  function CountExceeded(config: Config, c: Counters, t: Tick): Counters {
    c.(exceededCPU := c.exceededCPU + Bit(CPUHot(config, t)),
       exceededMemory := c.exceededMemory + Bit(MemoryHot(config, t)))
  }

  /** The CPU part of a tick: a hot tick past the cooldown starts an attempt, and the cooldown starts
      over whatever the attempt's outcome. */
  function CPUStep(config: Config, s: State, k: nat, t: Tick): State {
    if CPUHot(config, t) && Cooldown.Ready(s.last, t.now) then
      s.(last := Some(t.now), counters := AfterAttempt(config, s.counters, CPUProfile, t.cpuAnswers),
         cpu := s.cpu + [k], log := s.log + [Attempt(CPUProfile, k)])
    else s
  }

  function HeapStep(config: Config, s: State, k: nat, t: Tick): State {
    if MemoryHot(config, t) then
      s.(counters := AfterAttempt(config, s.counters, HeapProfile, t.heapAnswers),
         heap := s.heap + [k], log := s.log + [Attempt(HeapProfile, k)])
    else s
  }

  function Step(config: Config, s: State, k: nat, t: Tick): (r: State)
    ensures r.cpu == s.cpu || r.cpu == s.cpu + [k]
    ensures r.heap == s.heap || r.heap == s.heap + [k]
  {
    HeapStep(config, CPUStep(config, s.(counters := CountExceeded(config, s.counters, t)), k, t), k, t)
  }

  /** The loop's state after a run of ticks, from the start of the process. */
  function After(config: Config, initial: Counters, ticks: seq<Tick>): (r: State)
    ensures forall k | 0 <= k < |r.cpu| :: r.cpu[k] < |ticks|
    ensures forall k | 0 <= k < |r.heap| :: r.heap[k] < |ticks|
  {
    if ticks == [] then Started(initial)
    else
      var n := |ticks| - 1;
      Step(config, After(config, initial, ticks[..n]), n, ticks[n])
  }

  /** The ticks of one kind of attempt, in order. */
  function TicksOf(log: seq<Attempt>, kind: Kind): seq<nat> {
    if log == [] then []
    else
      var last := log[|log| - 1];
      TicksOf(log[..|log| - 1], kind) + (if last.kind == kind then [last.tick] else [])
  }

  lemma TicksOfAppend(log: seq<Attempt>, a: Attempt, kind: Kind)
    ensures TicksOf(log + [a], kind) == TicksOf(log, kind) + (if a.kind == kind then [a.tick] else [])
  {
    assert (log + [a])[..|log|] == log;
  }

  lemma StepKeepsLog(config: Config, s: State, k: nat, t: Tick)
    requires TicksOf(s.log, CPUProfile) == s.cpu && TicksOf(s.log, HeapProfile) == s.heap
    ensures var r := Step(config, s, k, t);
            TicksOf(r.log, CPUProfile) == r.cpu && TicksOf(r.log, HeapProfile) == r.heap
  {
    hide TicksOf;
    var c := CPUStep(config, s.(counters := CountExceeded(config, s.counters, t)), k, t);
    TicksOfAppend(s.log, Attempt(CPUProfile, k), CPUProfile);
    TicksOfAppend(s.log, Attempt(CPUProfile, k), HeapProfile);
    TicksOfAppend(c.log, Attempt(HeapProfile, k), CPUProfile);
    TicksOfAppend(c.log, Attempt(HeapProfile, k), HeapProfile);
  }

  /** The attempts of a run by kind are the ticks the state lists. */
  lemma {:induction false} LogIsAttempts(config: Config, initial: Counters, ticks: seq<Tick>)
    ensures var s := After(config, initial, ticks);
            TicksOf(s.log, CPUProfile) == s.cpu && TicksOf(s.log, HeapProfile) == s.heap
  {
    if ticks == [] {
    } else {
      var n := |ticks| - 1;
      LogIsAttempts(config, initial, ticks[..n]);
      StepKeepsLog(config, After(config, initial, ticks[..n]), n, ticks[n]);
    }
  }

  /** The loop starts exactly the attempts of the replayed run, in its order, and leaves its counters. */
  method MonitorResourceUsage(config: Config, ticks: seq<Tick>, m: SidecarMetrics)
    requires TickerStarts(config)
    modifies m
    ensures m.Value() == After(config, old(m.Value()), ticks).counters
    ensures m.attempts == old(m.attempts) + After(config, old(m.Value()), ticks).log
    ensures TicksOf(m.attempts[|old(m.attempts)|..], CPUProfile) == After(config, old(m.Value()), ticks).cpu
    ensures TicksOf(m.attempts[|old(m.attempts)|..], HeapProfile) == After(config, old(m.Value()), ticks).heap
  {
    ghost var initial, earlier := m.Value(), m.attempts;
    var lastCPUTime: Option<int> := None;
    var i := 0;
    while i < |ticks|
      invariant 0 <= i <= |ticks|
      invariant m.Value() == After(config, initial, ticks[..i]).counters
      invariant m.attempts == earlier + After(config, initial, ticks[..i]).log
      invariant lastCPUTime == After(config, initial, ticks[..i]).last
    {
      var tick := ticks[i];
      ghost var before := After(config, initial, ticks[..i]);
      assert ticks[..i + 1][..i] == ticks[..i];
      assert After(config, initial, ticks[..i + 1]) == Step(config, before, i, tick);
      ghost var k := i;
      i := i + 1;
      if tick.reading.None? {
        continue;
      }
      var cpuThresholdExceeded := AtLeast(tick.reading.value.cpu, config.cpuThreshold);
      var memThresholdExceeded := AtLeast(tick.reading.value.memory, config.memoryThreshold);
      if cpuThresholdExceeded {
        m.exceededCPU := m.exceededCPU + 1;
      }
      if memThresholdExceeded {
        m.exceededMemory := m.exceededMemory + 1;
      }
      assert m.Value() == CountExceeded(config, before.counters, tick);
      var now := tick.now;
      if lastCPUTime.None? || now - lastCPUTime.value > Cooldown.COOLDOWN {
        if cpuThresholdExceeded {
          var err := CollectAndUploadProfile(config, CPUProfile, m, tick.cpuAnswers, k);
          lastCPUTime := Some(now);
        }
      }
      if memThresholdExceeded {
        var err := CollectAndUploadProfile(config, HeapProfile, m, tick.heapAnswers, k);
      }
    }
    assert ticks[..i] == ticks;
    assert m.attempts[|earlier|..] == After(config, initial, ticks).log;
    LogIsAttempts(config, initial, ticks);
  }
}
