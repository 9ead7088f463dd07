/**
 From a Profiler and a pod, through the printed environment of the built sidecar, to the settings
 the sidecar process parses: the two programs agree.
 */
module ConfigRoundTrip {
  import opened Prelude
  import opened Decimal
  import opened SidecarEnv
  import opened SidecarBuilder
  import Sidecar = SidecarConfig
  import Api

  function IntendedScrapTarget(spec: Api.ProfilerSpec, pod: Pod, resolver: Resolver): Api.ScrapTarget {
    var auth :=
      if AuthType(spec, pod) == Api.AUTH_TYPE_BASIC then
        Api.Auth(Api.AUTH_TYPE_BASIC,
                 Some(Api.BasicAuth(Seen(LoginPart(spec, pod, true), resolver),
                                    Seen(LoginPart(spec, pod, false), resolver), None)))
      else Api.Auth("", None);
    Api.ScrapTarget(ScrapeURL(spec, pod), Some(auth))
  }

  /** The settings the operator means the sidecar to run with, without any text in between. */
  function IntendedConfig(
    spec: Api.ProfilerSpec, pod: Pod, target: string, resolver: Resolver, host: Sidecar.Host): Sidecar.Config
  {
    Sidecar.Config(
      target,
      ValueOr(spec.cpuThreshold, 80),
      ValueOr(spec.memoryThreshold, 80),
      30,
      (if spec.monitoringPeriod == 0 then 15 else spec.monitoringPeriod) * Sidecar.SECOND,
      spec.s3Bucket,
      OrElse(spec.s3Region, Sidecar.DEFAULT_REGION),
      spec.s3PathPrefix,
      Annotation(pod, S3_ENDPOINT_KEY),
      Sidecar.Truthy(Annotation(pod, S3_FORCE_PATH_STYLE_KEY)),
      Seen(AWSCredential(spec, ACCESS_KEY, spec.awsAccessKeyId), resolver),
      Seen(AWSCredential(spec, SECRET_KEY, spec.awsSecretAccessKey), resolver),
      OrElse(resolver.field(NAMESPACE_FIELD), Sidecar.DEFAULT_NAMESPACE),
      OrElse(resolver.field(NAME_FIELD), Sidecar.Hostname(host)),
      IntendedScrapTarget(spec, pod, resolver))
  }

  /** The sidecar process reads every intended setting as it was meant. */
  lemma ReadsAsIntended(spec: Api.ProfilerSpec, pod: Pod, target: string, resolver: Resolver, s: Setting)
    requires s in IntendedSettings(spec, pod, target)
    ensures Getenv(ProcessEnv(Present(IntendedSettings(spec, pod, target)), resolver), s.name)
            == Seen(s.source, resolver)
  {
    IntendedNamesDistinct(spec, pod, target);
    GetenvOfSetting(IntendedSettings(spec, pod, target), s, resolver);
  }

  lemma GroupsAreIntended(spec: Api.ProfilerSpec, pod: Pod, target: string, s: Setting)
    requires s in IdentitySettings(target) || s in ThresholdSettings(spec) || s in StorageSettings(spec)
             || s in CredentialSettings(spec) || s in URLSettings(spec, pod) || s in LoginSettings(spec, pod)
             || s in EndpointSettings(pod) || s in ProcessSettings(pod)
    ensures s in IntendedSettings(spec, pod, target)
  {
    hide IdentitySettings, ThresholdSettings, StorageSettings, CredentialSettings,
         URLSettings, LoginSettings, EndpointSettings, ProcessSettings;
  }

  function SidecarProcessEnv(
    spec: Api.ProfilerSpec, pod: Pod, target: string, resolver: Resolver): map<EnvName, string>
  {
    ProcessEnv(Present(IntendedSettings(spec, pod, target)), resolver)
  }

  /** Likewise for one setting of one of the groups. */
  lemma Reads(spec: Api.ProfilerSpec, pod: Pod, target: string, resolver: Resolver, s: Setting)
    requires s in IdentitySettings(target) || s in ThresholdSettings(spec) || s in StorageSettings(spec)
             || s in CredentialSettings(spec) || s in URLSettings(spec, pod) || s in LoginSettings(spec, pod)
             || s in EndpointSettings(pod) || s in ProcessSettings(pod)
    ensures Getenv(SidecarProcessEnv(spec, pod, target, resolver), s.name) == Seen(s.source, resolver)
  {
    GroupsAreIntended(spec, pod, target, s);
    ReadsAsIntended(spec, pod, target, resolver, s);
  }

  lemma ThresholdsRead(spec: Api.ProfilerSpec, pod: Pod, target: string, resolver: Resolver)
    ensures var env := SidecarProcessEnv(spec, pod, target, resolver);
            && Sidecar.IntSetting(Getenv(env, CPU_THRESHOLD), 80) == ValueOr(spec.cpuThreshold, 80)
            && Sidecar.IntSetting(Getenv(env, MEMORY_THRESHOLD), 80) == ValueOr(spec.memoryThreshold, 80)
            && Getenv(env, PROFILE_DURATION) == ""
            && Sidecar.Period(Getenv(env, MONITORING_PERIOD))
               == (if spec.monitoringPeriod == 0 then 15 else spec.monitoringPeriod) * Sidecar.SECOND
  {
    hide SidecarProcessEnv, Getenv;
    var g := ThresholdSettings(spec);
    Reads(spec, pod, target, resolver, g[0]);
    Reads(spec, pod, target, resolver, g[1]);
    Reads(spec, pod, target, resolver, g[2]);
    Reads(spec, pod, target, resolver, g[3]);
    if spec.cpuThreshold.Some? { AtoiOfPrint(spec.cpuThreshold.value); }
    if spec.memoryThreshold.Some? { AtoiOfPrint(spec.memoryThreshold.value); }
    AtoiOfPrint(spec.monitoringPeriod);
  }

  lemma StorageRead(spec: Api.ProfilerSpec, pod: Pod, target: string, resolver: Resolver)
    ensures var env := SidecarProcessEnv(spec, pod, target, resolver);
            && Getenv(env, TARGET_CONTAINER) == target
            && Getenv(env, POD_NAME) == resolver.field(NAME_FIELD)
            && Getenv(env, POD_NAMESPACE) == resolver.field(NAMESPACE_FIELD)
            && Getenv(env, S3_BUCKET) == spec.s3Bucket
            && Getenv(env, S3_REGION) == spec.s3Region
            && Getenv(env, S3_PATH_PREFIX) == spec.s3PathPrefix
            && Getenv(env, AWS_ACCESS_KEY_ID)
               == Seen(AWSCredential(spec, ACCESS_KEY, spec.awsAccessKeyId), resolver)
            && Getenv(env, AWS_SECRET_ACCESS_KEY)
               == Seen(AWSCredential(spec, SECRET_KEY, spec.awsSecretAccessKey), resolver)
  {
    hide SidecarProcessEnv, Getenv, AWSCredential;
    var i, s, c := IdentitySettings(target), StorageSettings(spec), CredentialSettings(spec);
    Reads(spec, pod, target, resolver, i[0]);
    Reads(spec, pod, target, resolver, i[1]);
    Reads(spec, pod, target, resolver, i[2]);
    Reads(spec, pod, target, resolver, s[0]);
    Reads(spec, pod, target, resolver, s[1]);
    Reads(spec, pod, target, resolver, s[2]);
    Reads(spec, pod, target, resolver, c[0]);
    Reads(spec, pod, target, resolver, c[1]);
  }

  lemma ScrapeRead(spec: Api.ProfilerSpec, pod: Pod, target: string, resolver: Resolver)
    ensures var env := SidecarProcessEnv(spec, pod, target, resolver);
            && Getenv(env, S3_ENDPOINT) == Annotation(pod, S3_ENDPOINT_KEY)
            && Getenv(env, S3_FORCE_PATH_STYLE) == Annotation(pod, S3_FORCE_PATH_STYLE_KEY)
            && Sidecar.GetScrapTarget(env) == IntendedScrapTarget(spec, pod, resolver)
  {
    hide SidecarProcessEnv, Getenv, ScrapeURL, AuthType, LoginPart, Annotation;
    var u, l, e := URLSettings(spec, pod), LoginSettings(spec, pod), EndpointSettings(pod);
    Reads(spec, pod, target, resolver, u[0]);
    Reads(spec, pod, target, resolver, u[1]);
    Reads(spec, pod, target, resolver, l[0]);
    Reads(spec, pod, target, resolver, l[1]);
    Reads(spec, pod, target, resolver, e[0]);
    Reads(spec, pod, target, resolver, e[1]);
  }

  /** ROUND TRIP: for every Profiler, pod, cluster and host, the sidecar loads exactly the intended
      settings, and refuses to start exactly for an empty target or bucket or a missing API client. */
  lemma RoundTrip(spec: Api.ProfilerSpec, pod: Pod, c: Container, resolver: Resolver, host: Sidecar.Host)
    requires IsSidecarFor(c, spec, pod)
    ensures Sidecar.Loaded(ProcessEnv(c.env, resolver), host)
            == if Target(pod).value == "" then Err(Sidecar.NoTargetContainer)
               else if spec.s3Bucket == "" then Err(Sidecar.NoBucket)
               else if !host.inCluster then Err(Sidecar.NotInCluster)
               else if !host.clientCreated then Err(Sidecar.NoClient)
               else Ok(IntendedConfig(spec, pod, Target(pod).value, resolver, host))
  {
    var target := Target(pod).value;
    ThresholdsRead(spec, pod, target, resolver);
    StorageRead(spec, pod, target, resolver);
    ScrapeRead(spec, pod, target, resolver);
    assert Sidecar.IntSetting("", 30) == 30;
  }

  /** A sidecar that loads its settings gets into its loop exactly when the resource's period is not
      negative: a negative one is printed, parsed and handed to the ticker, which panics. */
  lemma LoopStartsExactly(spec: Api.ProfilerSpec, pod: Pod, c: Container, resolver: Resolver, host: Sidecar.Host)
    requires IsSidecarFor(c, spec, pod)
    ensures var loaded := Sidecar.Loaded(ProcessEnv(c.env, resolver), host);
            loaded.Ok? ==> (Sidecar.TickerStarts(loaded.value) <==> spec.monitoringPeriod >= 0)
  {
    RoundTrip(spec, pod, c, resolver, host);
  }

  /** The environment names no variable twice. */
  lemma NoDuplicateNames(spec: Api.ProfilerSpec, pod: Pod, c: Container)
    requires IsSidecarFor(c, spec, pod)
    ensures DistinctNames(c.env)
  {
    IntendedNamesDistinct(spec, pod, Target(pod).value);
    PresentDistinct(IntendedSettings(spec, pod, Target(pod).value));
  }

  /** The metrics address the sidecar listens on names the port its container exposes. */
  lemma MetricsAddressNamesPort(spec: Api.ProfilerSpec, pod: Pod, c: Container, resolver: Resolver)
    requires IsSidecarFor(c, spec, pod)
    ensures var address := Getenv(ProcessEnv(c.env, resolver), METRICS_ADDR);
            && |address| > 0 && address[0] == ':'
            && |c.ports| == 1 && 1 <= c.ports[0] <= 65535
            && Atoi(address[1..]) == Some(c.ports[0])
  {
    Reads(spec, pod, Target(pod).value, resolver, ProcessSettings(pod)[2]);
    var address := MetricsAddress(MetricsPort(pod));
    assert address[1..] == Print(MetricsPort(pod));
    AtoiOfPrint(MetricsPort(pod));
  }

  /** A number printed into the port annotation, with any white space around it, becomes the port
      exactly when it is one; every other number leaves the default. */
  lemma PortAnnotation(pod: Pod, before: string, n: int, after: string)
    requires AllSpace(before) && AllSpace(after)
    requires "profiler.pprof.dev/sidecar_metrics_port" in pod.annotations
    requires pod.annotations["profiler.pprof.dev/sidecar_metrics_port"] == before + Print(n) + after
    ensures MetricsPort(pod) == if 1 <= n <= 65535 then n else 8080
  {
    TrimOfPaddedPrint(before, n, after);
    AtoiOfPrint(n);
  }
}
