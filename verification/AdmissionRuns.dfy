/** Any sequence of handler calls whose patches are fed back on one container list. */
module AdmissionRuns {
  import opened Prelude
  import opened SidecarEnv
  import opened SidecarBuilder
  import opened Admission
  import Api

  datatype World = World(containers: seq<Container>, counters: Counters)

  /** What one call amounts to.  The last two are patches that could not be encoded: the counters have
      moved, the pod has not. */
  datatype Event = Quiet | Injected | Removed | LostInjection | LostRemoval

  ghost predicate Next(ready: bool, w: World, r: Request, x: World) {
    && (r.pod.Some? ==> r.pod.value.containers == w.containers)
    && exists response ::
         && Call(ready, r, w.counters, response, x.counters)
         && x.containers == if response.Patched? then response.containers else w.containers
  }

  ghost predicate Happens(e: Event, w: World, x: World) {
    var c := w.counters;
    match e
    case Quiet => x == w
    case Injected =>
      && x.counters == c.(attached := c.attached + 1, active := c.active + 1)
      && |x.containers| == |w.containers| + 1
      && x.containers[..|w.containers|] == w.containers
      && x.containers[|w.containers|].name == SIDECAR_NAME
    case Removed =>
      && x.counters == c.(removed := c.removed + 1, active := c.active - 1)
      && HasName(w.containers, SIDECAR_NAME)
      && x.containers == Others(w.containers)
    case LostInjection =>
      x.counters == c.(attached := c.attached + 1, active := c.active + 1) && x.containers == w.containers
    case LostRemoval =>
      x.counters == c.(removed := c.removed + 1, active := c.active - 1) && x.containers == w.containers
  }

  /** Every call is one of the five events. */
  lemma CallIsEvent(ready: bool, w: World, r: Request, x: World) returns (e: Event)
    requires Next(ready, w, r, x)
    ensures Happens(e, w, x)
  {
    var response :| Call(ready, r, w.counters, response, x.counters)
                    && x.containers == if response.Patched? then response.containers else w.containers;
    var a :| Decides(ready, r, a) && Effect(a, r, w.counters, response, x.counters);
    match a
    case Reject(_) => e := Quiet;
    case Leave => e := Quiet;
    case Remove => e := if r.encodes then Removed else LostRemoval;
    case Inject(_) => e := if r.encodes then Injected else LostInjection;
  }

  /** A request admits one decision only. */
  lemma DecisionIsDetermined(ready: bool, r: Request, a: Action, b: Action)
    requires Decides(ready, r, a) && Decides(ready, r, b)
    ensures a == b
  {
  }

  ghost predicate Run(ws: seq<World>, es: seq<Event>) {
    |ws| == |es| + 1 && forall i | 0 <= i < |es| :: Happens(es[i], ws[i], ws[i + 1])
  }

  /** Any run of calls is a run of events. */
  lemma {:induction false} CallsAreRun(ready: bool, ws: seq<World>, rs: seq<Request>) returns (es: seq<Event>)
    requires |ws| == |rs| + 1
    requires forall i | 0 <= i < |rs| :: Next(ready, ws[i], rs[i], ws[i + 1])
    ensures |es| == |rs| && Run(ws, es)
    decreases |rs|
  {
    if rs == [] {
      es := [];
    } else {
      var n := |rs| - 1;
      var front := CallsAreRun(ready, ws[..n + 1], rs[..n]);
      var e := CallIsEvent(ready, ws[n], rs[n], ws[n + 1]);
      es := front + [e];
      forall i | 0 <= i < |es| ensures Happens(es[i], ws[i], ws[i + 1]) {
        if i < n { assert Happens(front[i], ws[..n + 1][i], ws[..n + 1][i + 1]); }
      }
    }
  }

  // ---- one event ----

  lemma {:induction false} OthersIdempotent(containers: seq<Container>)
    requires !HasName(containers, SIDECAR_NAME)
    ensures Others(containers) == containers
  {
    if containers == [] {
    } else {
      var n := |containers| - 1;
      var front := containers[..n];
      forall i | 0 <= i < n ensures front[i].name != SIDECAR_NAME {
        assert containers[i].name != SIDECAR_NAME;
      }
      OthersIdempotent(front);
      assert containers[n].name != SIDECAR_NAME;
      assert containers == front + [containers[n]];
    }
  }

  lemma OthersHasNoSidecar(containers: seq<Container>)
    ensures !HasName(Others(containers), SIDECAR_NAME)
    ensures Others(Others(containers)) == Others(containers)
  {
    OthersIdempotent(Others(containers));
  }

  lemma {:induction false} HasSidecarCounts(containers: seq<Container>)
    ensures HasName(containers, SIDECAR_NAME) <==> SidecarCount(containers) > 0
  {
    if containers == [] {
    } else {
      var n := |containers| - 1;
      HasSidecarCounts(containers[..n]);
      if HasName(containers[..n], SIDECAR_NAME) {
        var i :| 0 <= i < n && containers[..n][i].name == SIDECAR_NAME;
        assert containers[i].name == SIDECAR_NAME;
      }
      if HasName(containers, SIDECAR_NAME) && containers[n].name != SIDECAR_NAME {
        var i :| 0 <= i <= n && containers[i].name == SIDECAR_NAME;
        assert containers[..n][i].name == SIDECAR_NAME;
      }
    }
  }

  function NextCount(e: Event, count: nat): nat {
    match e
    case Injected => count + 1
    case Removed => 0
    case _ => count
  }

  lemma EventOnContainers(e: Event, w: World, x: World)
    requires Happens(e, w, x)
    ensures Others(x.containers) == Others(w.containers)
    ensures SidecarCount(x.containers) == NextCount(e, SidecarCount(w.containers))
  {
    match e
    case Injected => assert x.containers[..|x.containers| - 1] == w.containers;
    case Removed => OthersHasNoSidecar(w.containers);
    case _ =>
  }

  // ---- whole runs ----

  /** Injections since the last removal, on top of `initial` when there was none. */
  function CountAfter(initial: nat, es: seq<Event>): nat {
    if es == [] then initial else NextCount(es[|es| - 1], CountAfter(initial, es[..|es| - 1]))
  }

  /** Over any run the application's own containers keep their content and order, and the number of
      sidecars is that of the injections since the last removal. */
  lemma {:induction false} ContainersOverRun(ws: seq<World>, es: seq<Event>)
    requires Run(ws, es)
    ensures Others(ws[|es|].containers) == Others(ws[0].containers)
    ensures SidecarCount(ws[|es|].containers) == CountAfter(SidecarCount(ws[0].containers), es)
    decreases |es|
  {
    if es == [] {
    } else {
      var n := |es| - 1;
      ContainersOverRun(ws[..n + 1], es[..n]);
      EventOnContainers(es[n], ws[n], ws[n + 1]);
    }
  }

  function InjectionsAfter(es: seq<Event>, r: int): set<int> {
    set i | r < i < |es| && 0 <= i && es[i] == Injected
  }

  /** The fold in closed form: after the last removal, at `r`, only the injections since count; with no
      removal at all (`r` is -1) they count on top of the initial number. */
  lemma {:induction false} CountInClosedForm(initial: nat, es: seq<Event>, r: int)
    requires -1 <= r < |es| && (r >= 0 ==> es[r] == Removed) && forall i | r < i < |es| :: es[i] != Removed
    ensures CountAfter(initial, es) == (if r < 0 then initial else 0) + |InjectionsAfter(es, r)|
    decreases |es|
  {
    var n := |es| - 1;
    if r == n {
      assert InjectionsAfter(es, r) == {};
    } else {
      CountInClosedForm(initial, es[..n], r);
      assert InjectionsAfter(es, r) == InjectionsAfter(es[..n], r) + (if es[n] == Injected then {n} else {});
    }
  }

  /** Injecting into a sidecar-free list and removing again restores the list, and the gauge. */
  lemma InjectThenRemoveRestores(w: World, x: World, y: World)
    requires Happens(Injected, w, x) && Happens(Removed, x, y) && !HasName(w.containers, SIDECAR_NAME)
    ensures y.containers == w.containers && y.counters.active == w.counters.active
  {
    EventOnContainers(Injected, w, x);
    OthersIdempotent(w.containers);
  }

  /** At every point of every run the gauge has moved by attached minus removed. */
  lemma {:induction false} GaugeIsDifference(ws: seq<World>, es: seq<Event>)
    requires Run(ws, es)
    ensures var c, d := ws[0].counters, ws[|es|].counters;
            d.active - c.active == (d.attached - c.attached) - (d.removed - c.removed)
    decreases |es|
  {
    if es == [] {
    } else {
      var n := |es| - 1;
      GaugeIsDifference(ws[..n + 1], es[..n]);
      assert Happens(es[n], ws[n], ws[n + 1]);
    }
  }

  /** How far the gauge is above the sidecars really in the list. */
  function Drift(w: World): int {
    w.counters.active - SidecarCount(w.containers)
  }

  ghost predicate NothingLost(es: seq<Event>) {
    forall i | 0 <= i < |es| :: es[i] != LostInjection && es[i] != LostRemoval
  }

  /** Removals found exactly one sidecar. */
  ghost predicate SingleRemovals(ws: seq<World>, es: seq<Event>)
    requires |ws| == |es| + 1
  {
    forall i | 0 <= i < |es| && es[i] == Removed :: SidecarCount(ws[i].containers) == 1
  }

  /** How much one event moves the drift, given the sidecars in the list before it: a removal takes all
      of them out and lowers the gauge by one; a lost patch moves the gauge and not the list. */
  function EventExcess(e: Event, count: nat): int {
    match e
    case Removed => count - 1
    case LostInjection => 1
    case LostRemoval => -1
    case _ => 0
  }

  function Excess(ws: seq<World>, es: seq<Event>): int
    requires |ws| == |es| + 1
    decreases |es|
  {
    if es == [] then 0
    else
      var n := |es| - 1;
      Excess(ws[..n + 1], es[..n]) + EventExcess(es[n], SidecarCount(ws[n].containers))
  }

  lemma DriftStep(e: Event, w: World, x: World)
    requires Happens(e, w, x)
    ensures Drift(x) == Drift(w) + EventExcess(e, SidecarCount(w.containers))
    ensures e == Removed ==> SidecarCount(w.containers) >= 1
  {
    EventOnContainers(e, w, x);
    HasSidecarCounts(w.containers);
  }

  /** THE GAUGE over every run: it is off the real number of sidecars by exactly the excess of the
      run's events. */
  lemma {:induction false} DriftIsExcess(ws: seq<World>, es: seq<Event>)
    requires Run(ws, es)
    ensures Drift(ws[|es|]) == Drift(ws[0]) + Excess(ws, es)
    decreases |es|
  {
    if es == [] {
    } else {
      var n := |es| - 1;
      DriftIsExcess(ws[..n + 1], es[..n]);
      DriftStep(es[n], ws[n], ws[n + 1]);
    }
  }

  lemma RemovalsFindSidecars(ws: seq<World>, es: seq<Event>)
    requires Run(ws, es)
    ensures forall i | 0 <= i < |es| && es[i] == Removed :: SidecarCount(ws[i].containers) >= 1
  {
    forall i | 0 <= i < |es| && es[i] == Removed ensures SidecarCount(ws[i].containers) >= 1 {
      DriftStep(es[i], ws[i], ws[i + 1]);
    }
  }

  lemma {:induction false} ExcessWithoutLosses(ws: seq<World>, es: seq<Event>)
    requires |ws| == |es| + 1 && NothingLost(es)
    requires forall i | 0 <= i < |es| && es[i] == Removed :: SidecarCount(ws[i].containers) >= 1
    ensures Excess(ws, es) >= 0
    ensures Excess(ws, es) == 0 <==> SingleRemovals(ws, es)
    decreases |es|
  {
    hide SidecarCount;
    if es == [] {
    } else {
      var n := |es| - 1;
      ExcessWithoutLosses(ws[..n + 1], es[..n]);
      assert SingleRemovals(ws, es)
        <==> SingleRemovals(ws[..n + 1], es[..n])
             && (es[n] == Removed ==> SidecarCount(ws[n].containers) == 1);
    }
  }

  /** The gauge stays with the real number of sidecars exactly when the excess is zero; when every patch
      was encoded, exactly when no removal met two or more sidecars, and otherwise it ends too high. */
  lemma GaugeFollowsSidecarsExactly(ws: seq<World>, es: seq<Event>)
    requires Run(ws, es)
    ensures Drift(ws[|es|]) == Drift(ws[0]) <==> Excess(ws, es) == 0
    ensures NothingLost(es) ==>
              && (Drift(ws[|es|]) == Drift(ws[0]) <==> SingleRemovals(ws, es))
              && Drift(ws[|es|]) >= Drift(ws[0])
  {
    DriftIsExcess(ws, es);
    if NothingLost(es) {
      RemovalsFindSidecars(ws, es);
      ExcessWithoutLosses(ws, es);
    }
  }

  // ---- requests that make the gauge drift ----

  /** The pod of a world, enabled for the one Profiler of its namespace. */
  function EnabledRequest(w: World, p: Api.Profiler): Request {
    Request(Some(Pod(map[ENABLE_KEY := TRUE_TEXT, NAME_KEY := p.name], w.containers)), Some([p]), true)
  }

  /** The same pod without annotations. */
  function DisabledRequest(w: World): Request {
    Request(Some(Pod(map[], w.containers)), None, true)
  }

  lemma EnabledRequestDecides(w: World, p: Api.Profiler)
    requires w.containers != []
    ensures Decides(true, EnabledRequest(w, p), Inject(p))
  {
    hide Annotation;
    var r := EnabledRequest(w, p);
    assert |ENABLE_KEY| != |NAME_KEY| && TRUE_TEXT[0] != FALSE_TEXT[0];
    assert r.profilers.value[0] == p;
  }

  /** The handler injects without looking for a sidecar that is already there. */
  lemma EnabledPodIsInjected(w: World, p: Api.Profiler) returns (x: World)
    requires w.containers != []
    ensures Next(true, w, EnabledRequest(w, p), x) && Happens(Injected, w, x)
    ensures SidecarCount(x.containers) == SidecarCount(w.containers) + 1
  {
    hide Annotation, IntendedSettings, Present, SidecarImage, MetricsPort, Decides;
    var r := EnabledRequest(w, p);
    var pod := r.pod.value;
    var sidecar := Container(SIDECAR_NAME, SidecarImage(pod),
                             Present(IntendedSettings(p.spec, pod, Target(pod).value)),
                             [MetricsPort(pod)], SIDECAR_REMAINDER);
    var c := w.counters;
    x := World(w.containers + [sidecar], c.(attached := c.attached + 1, active := c.active + 1));
    EnabledRequestDecides(w, p);
    assert Effect(Inject(p), r, c, Patched(x.containers), x.counters);
    assert Call(true, r, c, Patched(x.containers), x.counters);
    EventOnContainers(Injected, w, x);
  }

  lemma DisabledPodIsCleared(w: World) returns (x: World)
    requires HasName(w.containers, SIDECAR_NAME)
    ensures Next(true, w, DisabledRequest(w), x) && Happens(Removed, w, x)
  {
    var r := DisabledRequest(w);
    var c := w.counters;
    x := World(Others(w.containers), c.(removed := c.removed + 1, active := c.active - 1));
    assert Decides(true, r, Remove);
    assert Effect(Remove, r, c, Patched(x.containers), x.counters);
    assert Call(true, r, c, Patched(x.containers), x.counters);
  }

  /** Three requests on any pod without a sidecar: admitted enabled twice it carries two sidecars, and the
      removal after that leaves the gauge one too high. */
  lemma SecondInjectionDrifts(w: World, p: Api.Profiler) returns (x: World, y: World, z: World)
    requires w.containers != [] && !HasName(w.containers, SIDECAR_NAME)
    ensures Next(true, w, EnabledRequest(w, p), x)
    ensures Next(true, x, EnabledRequest(x, p), y)
    ensures Next(true, y, DisabledRequest(y), z)
    ensures SidecarCount(y.containers) == 2 && Drift(z) == Drift(w) + 1
  {
    HasSidecarCounts(w.containers);
    x := EnabledPodIsInjected(w, p);
    y := EnabledPodIsInjected(x, p);
    HasSidecarCounts(y.containers);
    z := DisabledPodIsCleared(y);
    DriftStep(Injected, w, x);
    DriftStep(Injected, x, y);
    DriftStep(Removed, y, z);
  }
}
