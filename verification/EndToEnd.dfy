/** Properties that span the operator, the sidecar's start and its loop. */
module EndToEnd {
  import opened Prelude
  import opened Percent
  import opened SidecarEnv
  import opened SidecarBuilder
  import opened ConfigRoundTrip
  import opened Collector
  import Sidecar = SidecarConfig
  import Kubelet
  import Monitor
  import MonitorRuns
  import Api

  /** Username and password of one source, as the cluster resolves them. */
  function LoginValues(source: LoginSource, resolver: Resolver): Credentials {
    match source
    case Pair(u, p) => Credentials(u, p)
    case InSecret(n, u, p) => Credentials(resolver.secret(n, u), resolver.secret(n, p))
  }

  lemma LoginOfTarget(spec: Api.ProfilerSpec, pod: Pod, resolver: Resolver)
    ensures AuthType(spec, pod) != Api.AUTH_TYPE_BASIC ==> RequestAuth(IntendedScrapTarget(spec, pod, resolver)).None?
    ensures AuthType(spec, pod) == Api.AUTH_TYPE_BASIC ==>
              var v := if Login(spec, pod).Some? then LoginValues(Login(spec, pod).value, resolver)
                       else Credentials("", "");
              RequestAuth(IntendedScrapTarget(spec, pod, resolver))
              == if v.username != "" && v.password != "" then Some(v) else None
  {
    var user, pass := LoginPart(spec, pod, true), LoginPart(spec, pod, false);
    if AuthType(spec, pod) == Api.AUTH_TYPE_BASIC && Login(spec, pod).Some? {
      assert Credentials(Seen(user, resolver), Seen(pass, resolver)) == LoginValues(Login(spec, pod).value, resolver);
    }
  }

  lemma LoadedTarget(
    spec: Api.ProfilerSpec, pod: Pod, c: Container, resolver: Resolver, host: Sidecar.Host, config: Sidecar.Config)
    requires IsSidecarFor(c, spec, pod)
    requires Sidecar.Loaded(ProcessEnv(c.env, resolver), host) == Ok(config)
    ensures config.scrapTarget == IntendedScrapTarget(spec, pod, resolver)
  {
    RoundTrip(spec, pod, c, resolver, host);
  }

  /** CREDENTIALS: the profile request carries basic authentication exactly when the effective type is
      Basic and the first usable source resolves to two non-empty values, and then carries those two. */
  lemma RequestCarriesFirstUsableLogin(
    spec: Api.ProfilerSpec, pod: Pod, c: Container, resolver: Resolver, host: Sidecar.Host, config: Sidecar.Config)
    requires IsSidecarFor(c, spec, pod)
    requires Sidecar.Loaded(ProcessEnv(c.env, resolver), host) == Ok(config)
    ensures RequestAuth(config.scrapTarget)
            == if AuthType(spec, pod) == Api.AUTH_TYPE_BASIC && Login(spec, pod).Some? then
                 var v := LoginValues(Login(spec, pod).value, resolver);
                 if v.username != "" && v.password != "" then Some(v) else None
               else None
  {
    LoadedTarget(spec, pod, c, resolver, host, config);
    LoginOfTarget(spec, pod, resolver);
  }

  /** The first usable source: every source before it is unusable. */
  lemma {:induction false} FirstUsableIsFirst(sources: seq<Option<LoginSource>>)
    ensures FirstUsable(sources).None? <==> forall i | 0 <= i < |sources| :: sources[i].None?
    ensures FirstUsable(sources).Some? ==>
              exists i | 0 <= i < |sources| ::
                sources[i] == FirstUsable(sources) && forall j | 0 <= j < i :: sources[j].None?
  {
    if sources == [] || sources[0].Some? {
    } else {
      var rest := sources[1..];
      FirstUsableIsFirst(rest);
      if FirstUsable(rest).Some? {
        var i :| 0 <= i < |rest| && rest[i] == FirstUsable(rest) && forall j | 0 <= j < i :: rest[j].None?;
        assert sources[i + 1] == FirstUsable(sources);
        forall j | 0 <= j < i + 1 ensures sources[j].None? {
          if j > 0 { assert rest[j - 1].None?; }
        }
      }
      forall i | 0 <= i < |sources| && FirstUsable(sources).None? ensures sources[i].None? {
        if i > 0 { assert rest[i - 1].None?; }
      }
    }
  }

  lemma LoadedThresholds(
    spec: Api.ProfilerSpec, pod: Pod, c: Container, resolver: Resolver, host: Sidecar.Host, config: Sidecar.Config)
    requires IsSidecarFor(c, spec, pod)
    requires Sidecar.Loaded(ProcessEnv(c.env, resolver), host) == Ok(config)
    ensures config.cpuThreshold == ValueOr(spec.cpuThreshold, 80)
    ensures config.memoryThreshold == ValueOr(spec.memoryThreshold, 80)
  {
    RoundTrip(spec, pod, c, resolver, host);
  }

  /** THRESHOLD: from the resource's number, printed and parsed, and the cluster's answers, to the integer
      comparison that makes a tick hot: the first reported usage of the container against limits settled
      resource by resource, 80 percent when the resource sets no threshold.  `at` is the place of the
      container in the pod, past the end if it is not there. */
  lemma TickHotExactly(
    spec: Api.ProfilerSpec, pod: Pod, c: Container, resolver: Resolver, host: Sidecar.Host, config: Sidecar.Config,
    answers: Kubelet.Answers, at: nat, tick: Monitor.Tick)
    returns (stats: Kubelet.ContainerStats, limits: Kubelet.Limits, i: nat, k: nat)
    requires IsSidecarFor(c, spec, pod)
    requires Sidecar.Loaded(ProcessEnv(c.env, resolver), host) == Ok(config)
    requires tick.reading.Some?
    requires Kubelet.IsReading(Monitor.KubeletConfig(config), answers, tick.reading.value)
    requires Kubelet.FirstNamed(answers.pod.value.containers, config.targetContainer, at)
    ensures Kubelet.FirstInReport(answers.stats.value, Monitor.KubeletConfig(config), i, k)
    ensures stats == answers.stats.value[i].containers[k]
    ensures var own, node := Kubelet.SetThere(answers.pod.value.containers, at), Kubelet.NodeCapacity(answers);
            && Kubelet.InForce(own.cpuMilli, node.cpuMilli, limits.cpuMilli)
            && Kubelet.InForce(own.memoryBytes, node.memoryBytes, limits.memoryBytes)
    ensures 0 <= limits.cpuMilli <= MAX_LIMIT_MILLI ==>
              (Monitor.CPUHot(config, tick)
               <==> Documented(stats.usageNanoCores, limits.cpuMilli, ValueOr(spec.cpuThreshold, 80)))
    ensures 0 <= limits.memoryBytes ==>
              (Monitor.MemoryHot(config, tick)
               <==> if limits.memoryBytes == 0 then stats.workingSetBytes > 0
                    else 100 * stats.workingSetBytes >= ValueOr(spec.memoryThreshold, 80) * limits.memoryBytes)
  {
    LoadedThresholds(spec, pod, c, resolver, host, config);
    stats, limits, i, k := Kubelet.ReadingExactly(Monitor.KubeletConfig(config), answers, tick.reading.value, at);
    hide IsSidecarFor;
    if 0 <= limits.cpuMilli <= MAX_LIMIT_MILLI {
      CPUTriggerExactly(stats.usageNanoCores, limits.cpuMilli, config.cpuThreshold);
    }
    TriggerExactly(stats.workingSetBytes, limits.memoryBytes, config.memoryThreshold);
  }

  lemma SameScrapTarget(spec: Api.ProfilerSpec, higher: Api.int32, pod: Pod, resolver: Resolver)
    ensures IntendedScrapTarget(spec.(cpuThreshold := Some(higher)), pod, resolver)
            == IntendedScrapTarget(spec, pod, resolver)
  {
    hide AnnotationPair, AnnotationSecret, FirstUsable;
    var raised := spec.(cpuThreshold := Some(higher));
    assert CRDPair(raised) == CRDPair(spec) && CRDSecret(raised) == CRDSecret(spec);
    assert Login(raised, pod) == Login(spec, pod);
    assert AuthType(raised, pod) == AuthType(spec, pod) && ScrapeURL(raised, pod) == ScrapeURL(spec, pod);
  }

  lemma OnlyThresholdDiffers(
    spec: Api.ProfilerSpec, higher: Api.int32, pod: Pod, resolver: Resolver, host: Sidecar.Host)
    requires Target(pod).Some?
    ensures var t := Target(pod).value;
            IntendedConfig(spec.(cpuThreshold := Some(higher)), pod, t, resolver, host)
            == IntendedConfig(spec, pod, t, resolver, host).(cpuThreshold := higher)
  {
    hide IntendedScrapTarget, Seen, Annotation;
    SameScrapTarget(spec, higher, pod, resolver);
  }

  /** Raising the threshold in the Profiler, all else equal, never gives more CPU attempts on the same
      run of the sidecar. */
  lemma HigherSpecThresholdFewerAttempts(
    spec: Api.ProfilerSpec, higher: Api.int32, pod: Pod, c: Container, d: Container,
    resolver: Resolver, host: Sidecar.Host, low: Sidecar.Config, high: Sidecar.Config,
    initial: Counters, ticks: seq<Monitor.Tick>)
    requires IsSidecarFor(c, spec, pod) && IsSidecarFor(d, spec.(cpuThreshold := Some(higher)), pod)
    requires higher >= ValueOr(spec.cpuThreshold, 80)
    requires Sidecar.Loaded(ProcessEnv(c.env, resolver), host) == Ok(low)
    requires Sidecar.Loaded(ProcessEnv(d.env, resolver), host) == Ok(high)
    requires MonitorRuns.OrderedTicks(ticks)
    ensures |Monitor.After(high, initial, ticks).cpu| <= |Monitor.After(low, initial, ticks).cpu|
  {
    var raised := spec.(cpuThreshold := Some(higher));
    RoundTrip(spec, pod, c, resolver, host);
    RoundTrip(raised, pod, d, resolver, host);
    OnlyThresholdDiffers(spec, higher, pod, resolver, host);
    MonitorRuns.HigherThresholdFewerAttempts(low, higher, initial, ticks);
  }
}
