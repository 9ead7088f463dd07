/** The admission handler: it adds the profiling sidecar to a pod or takes it away again. */
module Admission {
  import opened Prelude
  import opened SidecarBuilder
  import Api

  const ENABLE_KEY: string := "profiler.pprof.dev/enable"
  const NAME_KEY: string := "profiler.pprof.dev/name"
  const FALSE_TEXT: string := "false"

  /** One admission request and what happens around it: the decoded pod, the Profilers of its
      namespace (None when listing fails), and whether the patched pod can be encoded. */
  datatype Request = Request(pod: Option<Pod>, profilers: Option<seq<Api.Profiler>>, encodes: bool)

  datatype Response = Errored(code: int) | Allowed | Patched(containers: seq<Container>)

  datatype Counters = Counters(attached: int, removed: int, active: int)

  /** What the handler sets out to do. */
  datatype Action = Reject(code: int) | Leave | Remove | Inject(profiler: Api.Profiler)

  ghost predicate HasName(containers: seq<Container>, name: string) {
    exists i | 0 <= i < |containers| :: containers[i].name == name
  }

  method HasSidecar(containers: seq<Container>, name: string) returns (found: bool)
    ensures found <==> HasName(containers, name)
  {
    var i := 0;
    while i < |containers|
      invariant 0 <= i <= |containers|
      invariant forall j | 0 <= j < i :: containers[j].name != name
    {
      if containers[i].name == name {
        return true;
      }
      i := i + 1;
    }
    return false;
  }

  /** The containers that are not the sidecar, in order. */
  function Others(containers: seq<Container>): (r: seq<Container>)
    ensures |r| <= |containers|
    ensures forall i | 0 <= i < |r| :: r[i].name != SIDECAR_NAME
  {
    if containers == [] then []
    else
      var n := |containers| - 1;
      Others(containers[..n]) + (if containers[n].name != SIDECAR_NAME then [containers[n]] else [])
  }

  function SidecarCount(containers: seq<Container>): nat {
    |containers| - |Others(containers)|
  }

  /** A container by itself stays or goes by its name. */
  lemma OthersOfOne(c: Container)
    ensures Others([c]) == if c.name == "pprof-sidecar" then [] else [c]
  {
    assert [c][..0] == [];
  }

  /** What stands beside a container makes no difference to it. */
  lemma {:induction false} OthersOfConcat(a: seq<Container>, b: seq<Container>)
    ensures Others(a + b) == Others(a) + Others(b)
    decreases |b|
  {
    if b == [] {
      assert a + b == a;
    } else {
      var n := |b| - 1;
      OthersOfConcat(a, b[..n]);
      assert (a + b)[..|a + b| - 1] == a + b[..n];
    }
  }

  /** Every container with another name is kept as often as it occurs, and no sidecar is. */
  lemma {:induction false} OthersExactly(containers: seq<Container>, c: Container)
    ensures multiset(Others(containers))[c] == if c.name == "pprof-sidecar" then 0 else multiset(containers)[c]
  {
    if containers == [] {
    } else {
      var n := |containers| - 1;
      OthersExactly(containers[..n], c);
      assert containers == containers[..n] + [containers[n]];
    }
  }

  /** The count is the number of places in the list that hold a sidecar. */
  lemma {:induction false} SidecarCountExactly(containers: seq<Container>)
    ensures SidecarCount(containers)
            == |set i: nat | i < |containers| && containers[i].name == "pprof-sidecar"|
  {
    var places := set i: nat | i < |containers| && containers[i].name == "pprof-sidecar";
    if containers == [] {
      assert places == {};
    } else {
      var n := |containers| - 1;
      SidecarCountExactly(containers[..n]);
      var before := set i: nat | i < |containers[..n]| && containers[..n][i].name == "pprof-sidecar";
      assert places == before + (if containers[n].name == "pprof-sidecar" then {n} else {});
    }
  }

  method WithoutSidecar(containers: seq<Container>) returns (updatedContainers: seq<Container>)
    ensures updatedContainers == Others(containers)
  {
    updatedContainers := [];
    var i := 0;
    while i < |containers|
      invariant 0 <= i <= |containers|
      invariant updatedContainers == Others(containers[..i])
    {
      assert containers[..i + 1][..i] == containers[..i];
      if containers[i].name != SIDECAR_NAME {
        updatedContainers := updatedContainers + [containers[i]];
      }
      i := i + 1;
    }
    assert containers[..i] == containers;
  }

  /** `p` is the first Profiler with the given name. */
  ghost predicate IsFirstNamed(profilers: seq<Api.Profiler>, name: string, p: Api.Profiler) {
    exists i | 0 <= i < |profilers| ::
      profilers[i] == p && p.name == name && forall j | 0 <= j < i :: profilers[j].name != name
  }

  ghost predicate Disabled(pod: Pod) {
    ENABLE_KEY !in pod.annotations || pod.annotations[ENABLE_KEY] == FALSE_TEXT
  }

  /** Enabled, with a Profiler named. */
  ghost predicate Asked(pod: Pod) {
    !Disabled(pod) && NAME_KEY in pod.annotations
  }

  ghost predicate NoneNamed(r: Request)
    requires r.pod.Some? && Asked(r.pod.value) && r.profilers.Some?
  {
    forall i | 0 <= i < |r.profilers.value| :: r.profilers.value[i].name != r.pod.value.annotations[NAME_KEY]
  }

  ghost predicate NoTarget(pod: Pod) {
    Target(pod).None?
  }

  /** The decision, by what holds of the request rather than by the order of the checks. */
  ghost predicate Decides(ready: bool, r: Request, a: Action) {
    match a
    case Reject(code) =>
      if !ready then code == 500
      else if r.pod.None? then code == 400
      else
        && code == 500
        && Asked(r.pod.value)
        && (r.profilers.None? || (r.profilers.value != [] && (NoneNamed(r) || NoTarget(r.pod.value))))
    case Leave =>
      && ready && r.pod.Some?
      && if Disabled(r.pod.value) then !HasName(r.pod.value.containers, SIDECAR_NAME)
         else NAME_KEY !in r.pod.value.annotations || (r.profilers.Some? && r.profilers.value == [])
    case Remove => ready && r.pod.Some? && Disabled(r.pod.value) && HasName(r.pod.value.containers, SIDECAR_NAME)
    case Inject(p) =>
      && ready && r.pod.Some? && Asked(r.pod.value) && !NoTarget(r.pod.value)
      && r.profilers.Some? && IsFirstNamed(r.profilers.value, r.pod.value.annotations[NAME_KEY], p)
  }

  ghost predicate Effect(a: Action, r: Request, before: Counters, response: Response, after: Counters) {
    match a
    case Reject(code) => response == Errored(code) && after == before
    case Leave => response == Allowed && after == before
    case Remove =>
      && r.pod.Some?
      && after == before.(removed := before.removed + 1, active := before.active - 1)
      && response == if r.encodes then Patched(Others(r.pod.value.containers)) else Errored(500)
    case Inject(p) =>
      && r.pod.Some?
      && after == before.(attached := before.attached + 1, active := before.active + 1)
      && if r.encodes then
           && response.Patched?
           && |response.containers| == |r.pod.value.containers| + 1
           && response.containers[..|r.pod.value.containers|] == r.pod.value.containers
           && IsSidecarFor(response.containers[|r.pod.value.containers|], p.spec, r.pod.value)
         else response == Errored(500)
  }

  /** What one call answers and does to the counters.  The counters move before the patch is encoded,
      so they move even when encoding fails. */
  ghost predicate Call(ready: bool, r: Request, before: Counters, response: Response, after: Counters) {
    exists a :: Decides(ready, r, a) && Effect(a, r, before, response, after)
  }

  /** The enable annotation is absent or the text "false"; any other text enables. */
  ghost predicate TurnedOff(pod: Pod) {
    "profiler.pprof.dev/enable" !in pod.annotations || pod.annotations["profiler.pprof.dev/enable"] == "false"
  }

  ghost predicate Names(pod: Pod, p: Api.Profiler) {
    && "profiler.pprof.dev/name" in pod.annotations
    && p.name == pod.annotations["profiler.pprof.dev/name"]
  }

  ghost predicate OffersTarget(pod: Pod) {
    pod.containers != [] || ("profiler.pprof.dev/target_container" in pod.annotations
                             && pod.annotations["profiler.pprof.dev/target_container"] != "")
  }

  /** A call takes sidecars away exactly from a readable pod that is turned off and has one, and attaches
      one exactly to a pod that is turned on, offers a target and names a listed Profiler; no other call
      moves a counter. */
  lemma CountersMoveExactly(ready: bool, r: Request, before: Counters, response: Response, after: Counters)
    requires Call(ready, r, before, response, after)
    ensures after.removed - before.removed
            == if ready && r.pod.Some? && TurnedOff(r.pod.value) && HasName(r.pod.value.containers, "pprof-sidecar")
               then 1 else 0
    ensures after.attached - before.attached
            == if ready && r.pod.Some? && !TurnedOff(r.pod.value) && OffersTarget(r.pod.value)
                  && r.profilers.Some?
                  && exists i | 0 <= i < |r.profilers.value| :: Names(r.pod.value, r.profilers.value[i])
               then 1 else 0
    ensures after.active - before.active == (after.attached - before.attached) - (after.removed - before.removed)
  {
    hide Others, IsSidecarFor;
    var a :| Decides(ready, r, a) && Effect(a, r, before, response, after);
    if a.Inject? {
      var i :| 0 <= i < |r.profilers.value| && r.profilers.value[i] == a.profiler;
      assert Names(r.pod.value, r.profilers.value[i]);
    }
  }

  /** THE ANSWER: a pod that cannot be read is the client's fault; every other refusal is the server's,
      whether it is not ready, cannot list Profilers, finds none of the name or no target, or cannot
      encode a pod it changed; a pod it need not change is let through as it is. */
  lemma AnswerExactly(ready: bool, r: Request, before: Counters, response: Response, after: Counters)
    requires Call(ready, r, before, response, after)
    ensures response == Errored(400) <==> ready && r.pod.None?
    ensures response == Allowed
            <==> && ready && r.pod.Some?
                 && if TurnedOff(r.pod.value) then !HasName(r.pod.value.containers, "pprof-sidecar")
                    else "profiler.pprof.dev/name" !in r.pod.value.annotations || r.profilers == Some([])
    ensures response.Patched? <==> r.encodes && after != before
    ensures response.Errored? ==> response.code in {400, 500}
  {
    hide Others, IsSidecarFor;
    var a :| Decides(ready, r, a) && Effect(a, r, before, response, after);
    if a.Inject? {
      assert r.profilers.value != [];
    }
  }

  /** A patched pod that is turned off keeps its other containers, as often as they occur, and loses its
      sidecars. */
  lemma RemovalPatchExactly(ready: bool, r: Request, before: Counters, response: Response, after: Counters)
    requires Call(ready, r, before, response, after) && response.Patched?
    requires r.pod.Some? && TurnedOff(r.pod.value)
    ensures forall c ::
              multiset(response.containers)[c]
              == if c.name == "pprof-sidecar" then 0 else multiset(r.pod.value.containers)[c]
  {
    hide Others, IsSidecarFor, Target, HasName;
    var a :| Decides(ready, r, a) && Effect(a, r, before, response, after);
    assert a.Remove?;
    forall c ensures multiset(response.containers)[c]
                     == if c.name == "pprof-sidecar" then 0 else multiset(r.pod.value.containers)[c]
    {
      OthersExactly(r.pod.value.containers, c);
    }
  }

  /** One that is turned on gets, after its own containers, the sidecar of the first Profiler it names. */
  lemma InjectionPatchExactly(ready: bool, r: Request, before: Counters, response: Response, after: Counters)
    returns (i: nat, sidecar: Container)
    requires Call(ready, r, before, response, after) && response.Patched?
    requires r.pod.Some? && !TurnedOff(r.pod.value)
    ensures r.profilers.Some? && i < |r.profilers.value| && Names(r.pod.value, r.profilers.value[i])
    ensures forall j | 0 <= j < i :: !Names(r.pod.value, r.profilers.value[j])
    ensures IsSidecarFor(sidecar, r.profilers.value[i].spec, r.pod.value)
    ensures response.containers == r.pod.value.containers + [sidecar]
  {
    hide Others, IsSidecarFor, Target, HasName;
    var a :| Decides(ready, r, a) && Effect(a, r, before, response, after);
    assert a.Inject?;
    var containers, profilers, name := r.pod.value.containers, r.profilers.value, r.pod.value.annotations[NAME_KEY];
    i :| 0 <= i < |profilers| && profilers[i] == a.profiler && a.profiler.name == name
         && forall j | 0 <= j < i :: profilers[j].name != name;
    sidecar := response.containers[|containers|];
    assert response.containers == containers + [sidecar];
  }

  /** The operator's process-wide Prometheus metrics. */
  class OperatorMetrics {
    var attached: int
    var removed: int
    var active: int

    constructor ()
      ensures Value() == Counters(0, 0, 0)
    {
      attached, removed, active := 0, 0, 0;
    }

    function Value(): Counters
      reads this
    {
      Counters(attached, removed, active)
    }
  }

  class PodMutator {
    var hasDecoder: bool
    const metrics: OperatorMetrics

    constructor (metrics: OperatorMetrics)
      ensures this.metrics == metrics && !hasDecoder
    {
      this.metrics := metrics;
      hasDecoder := false;
    }

    method InjectDecoder()
      modifies this
      ensures hasDecoder
    {
      hasDecoder := true;
    }

    method RemoveSidecarIfExists(pod: Pod, encodes: bool) returns (response: Response)
      modifies metrics
      ensures if HasName(pod.containers, SIDECAR_NAME) then
                && metrics.Value() == old(metrics.Value()).(
                                        removed := old(metrics.removed) + 1, active := old(metrics.active) - 1)
                && response == if encodes then Patched(Others(pod.containers)) else Errored(500)
              else metrics.Value() == old(metrics.Value()) && response == Allowed
    {
      var present := HasSidecar(pod.containers, SIDECAR_NAME);
      if !present {
        return Allowed;
      }
      var updatedContainers := WithoutSidecar(pod.containers);
      metrics.removed := metrics.removed + 1;
      metrics.active := metrics.active - 1;
      if !encodes {
        return Errored(500);
      }
      return Patched(updatedContainers);
    }

    method FindProfiler(profilers: seq<Api.Profiler>, name: string) returns (profiler: Option<Api.Profiler>)
      ensures profiler.Some? ==> IsFirstNamed(profilers, name, profiler.value)
      ensures profiler.None? ==> forall i | 0 <= i < |profilers| :: profilers[i].name != name
    {
      var i := 0;
      while i < |profilers|
        invariant 0 <= i <= |profilers|
        invariant forall j | 0 <= j < i :: profilers[j].name != name
      {
        if profilers[i].name == name {
          return Some(profilers[i]);
        }
        i := i + 1;
      }
      return None;
    }

    method Handle(req: Request) returns (response: Response)
      modifies metrics
      ensures Call(hasDecoder, req, old(metrics.Value()), response, metrics.Value())
    {
      ghost var before := metrics.Value();
      if !hasDecoder {
        assert Decides(hasDecoder, req, Reject(500));
        return Errored(500);
      }
      if req.pod.None? {
        assert Decides(hasDecoder, req, Reject(400));
        return Errored(400);
      }
      var pod := req.pod.value;
      if ENABLE_KEY !in pod.annotations || pod.annotations[ENABLE_KEY] == FALSE_TEXT {
        var present := HasSidecar(pod.containers, SIDECAR_NAME);
        if present {
          assert Decides(hasDecoder, req, Remove);
          response := RemoveSidecarIfExists(pod, req.encodes);
          assert Effect(Remove, req, before, response, metrics.Value());
          return;
        } else {
          assert Decides(hasDecoder, req, Leave);
          return Allowed;
        }
      }
      if NAME_KEY !in pod.annotations {
        assert Decides(hasDecoder, req, Leave);
        return Allowed;
      }
      if req.profilers.None? {
        assert Decides(hasDecoder, req, Reject(500));
        return Errored(500);
      }
      if |req.profilers.value| == 0 {
        assert Decides(hasDecoder, req, Leave);
        return Allowed;
      }
      var profiler := FindProfiler(req.profilers.value, pod.annotations[NAME_KEY]);
      if profiler.None? {
        assert NoneNamed(req);
        assert Decides(hasDecoder, req, Reject(500));
        return Errored(500);
      }
      var sidecar := BuildProfilerSidecar(profiler.value.spec, pod);
      if sidecar.None? {
        assert Decides(hasDecoder, req, Reject(500));
        return Errored(500);
      }
      assert Decides(hasDecoder, req, Inject(profiler.value));
      var containers := pod.containers + [sidecar.value];
      metrics.attached := metrics.attached + 1;
      metrics.active := metrics.active + 1;
      if !req.encodes {
        response := Errored(500);
      } else {
        response := Patched(containers);
      }
      assert Effect(Inject(profiler.value), req, before, response, metrics.Value());
    }
  }
}
