/**
 Handlers running at the same time.  Each counter update is atomic, the two updates of one handler
 together are not.  A system state is the three counters and every handler that ever started.
 */
module AdmissionConcurrent {
  import opened Admission

  datatype Kind = Attacher | Remover | Bystander

  /** Before the first counter update, between the two, after the second. */
  datatype Stage = Start | Middle | Done

  datatype Handler = Handler(kind: Kind, stage: Stage)

  datatype System = System(counters: Counters, handlers: seq<Handler>)

  const INITIAL: System := System(Counters(0, 0, 0), [])

  /** The order of the two updates is the code's: the total first, then the gauge. */
  function FirstUpdate(kind: Kind, c: Counters): Counters {
    match kind
    case Attacher => c.(attached := c.attached + 1)
    case Remover => c.(removed := c.removed + 1)
    case Bystander => c
  }

  function SecondUpdate(kind: Kind, c: Counters): Counters {
    match kind
    case Attacher => c.(active := c.active + 1)
    case Remover => c.(active := c.active - 1)
    case Bystander => c
  }

  /** The kind of handler that a decision of `Handle` makes. */
  function KindOf(a: Action): Kind {
    match a
    case Reject(_) => Bystander
    case Leave => Bystander
    case Remove => Remover
    case Inject(_) => Attacher
  }

  /** What one call of `Handle` does to the counters is its two updates, nothing else in between. */
  lemma CallIsItsTwoUpdates(ready: bool, r: Request, before: Counters, response: Response, after: Counters)
    returns (kind: Kind)
    requires Call(ready, r, before, response, after)
    ensures after == SecondUpdate(kind, FirstUpdate(kind, before))
    ensures kind == Bystander <==> response == Allowed || (response.Errored? && after == before)
  {
    var a :| Decides(ready, r, a) && Effect(a, r, before, response, after);
    kind := KindOf(a);
  }

  ghost predicate Arrives(s: System, t: System) {
    exists kind :: t == s.(handlers := s.handlers + [Handler(kind, Start)])
  }

  ghost predicate Advances(s: System, i: nat, t: System) {
    && i < |s.handlers|
    && var h := s.handlers[i];
       match h.stage
       case Start => t == System(FirstUpdate(h.kind, s.counters), s.handlers[i := h.(stage := Middle)])
       case Middle => t == System(SecondUpdate(h.kind, s.counters), s.handlers[i := h.(stage := Done)])
       case Done => false
  }

  ghost predicate Next(s: System, t: System) {
    Arrives(s, t) || exists i: nat :: Advances(s, i, t)
  }

  /** Every interleaving of any number of handlers. */
  ghost predicate Trace(ss: seq<System>) {
    ss != [] && ss[0] == INITIAL && forall i | 0 <= i < |ss| - 1 :: Next(ss[i], ss[i + 1])
  }

  function Count(hs: seq<Handler>, kind: Kind, stage: Stage): nat {
    multiset(hs)[Handler(kind, stage)]
  }

  /** The counters in terms of where the handlers are. */
  ghost predicate Inv(s: System) {
    var c, hs := s.counters, s.handlers;
    && c.attached == Count(hs, Attacher, Middle) + Count(hs, Attacher, Done)
    && c.removed == Count(hs, Remover, Middle) + Count(hs, Remover, Done)
    && c.active == Count(hs, Attacher, Done) - Count(hs, Remover, Done)
  }

  lemma CountOfUpdate(hs: seq<Handler>, i: nat, g: Handler, kind: Kind, stage: Stage)
    requires i < |hs|
    ensures var h := Handler(kind, stage);
            Count(hs[i := g], kind, stage)
            == Count(hs, kind, stage) - (if hs[i] == h then 1 else 0) + (if g == h then 1 else 0)
  {
  }

  lemma NextKeepsInv(s: System, t: System)
    requires Inv(s) && Next(s, t)
    ensures Inv(t)
  {
    if i: nat :| Advances(s, i, t) {
      var g := t.handlers[i];
      CountOfUpdate(s.handlers, i, g, Attacher, Middle);
      CountOfUpdate(s.handlers, i, g, Attacher, Done);
      CountOfUpdate(s.handlers, i, g, Remover, Middle);
      CountOfUpdate(s.handlers, i, g, Remover, Done);
    }
  }

  lemma {:induction false} TraceInv(ss: seq<System>)
    requires Trace(ss)
    ensures Inv(ss[|ss| - 1])
    decreases |ss|
  {
    if |ss| == 1 {
    } else {
      var front := ss[..|ss| - 1];
      forall i | 0 <= i < |front| - 1 ensures Next(front[i], front[i + 1]) {
        assert Next(ss[i], ss[i + 1]);
      }
      TraceInv(front);
      NextKeepsInv(ss[|ss| - 2], ss[|ss| - 1]);
    }
  }

  /** At every moment of every interleaving the gauge is attached minus removed, less the handlers
      between their attach updates, plus those between their remove updates. */
  lemma GaugeAtEveryMoment(ss: seq<System>)
    requires Trace(ss)
    ensures var s := ss[|ss| - 1];
            s.counters.active == s.counters.attached - s.counters.removed
                                 - Count(s.handlers, Attacher, Middle) + Count(s.handlers, Remover, Middle)
  {
    TraceInv(ss);
  }

  ghost predicate Quiescent(s: System) {
    forall i | 0 <= i < |s.handlers| :: s.handlers[i].stage != Middle
  }

  /** One handler after the other, each doing both updates. */
  function Sequentially(hs: seq<Handler>): Counters {
    if hs == [] then Counters(0, 0, 0)
    else
      var c := Sequentially(hs[..|hs| - 1]);
      var h := hs[|hs| - 1];
      if h.stage == Done then SecondUpdate(h.kind, FirstUpdate(h.kind, c)) else c
  }

  lemma {:induction false} SequentialCounts(hs: seq<Handler>)
    ensures var c := Sequentially(hs);
            && c.attached == Count(hs, Attacher, Done)
            && c.removed == Count(hs, Remover, Done)
            && c.active == Count(hs, Attacher, Done) - Count(hs, Remover, Done)
  {
    if hs == [] {
    } else {
      var n := |hs| - 1;
      SequentialCounts(hs[..n]);
      assert hs == hs[..n] + [hs[n]];
    }
  }

  /** Whenever no handler is between its updates, the counters are what running the finished handlers
      one after the other gives; in particular the gauge is attached minus removed. */
  lemma QuiescentIsSequential(ss: seq<System>)
    requires Trace(ss) && Quiescent(ss[|ss| - 1])
    ensures var s := ss[|ss| - 1];
            && s.counters == Sequentially(s.handlers)
            && s.counters.active == s.counters.attached - s.counters.removed
  {
    TraceInv(ss);
    var s := ss[|ss| - 1];
    SequentialCounts(s.handlers);
    assert forall k :: Handler(k, Middle) !in s.handlers;
  }
}
