/**
 The operator's side of the pipeline: the profiling sidecar built for a pod from a Profiler and
 the pod's annotations.  `IntendedSource` says, variable by variable, what the container's
 environment should hold; each method's contract is that its piece of the list holds exactly that.
 */
module SidecarBuilder {
  import opened Prelude
  import opened Decimal
  import opened SidecarEnv
  import Api

  const TARGET_CONTAINER_KEY: string := "profiler.pprof.dev/target_container"
  const SIDECAR_IMAGE_KEY: string := "profiler.pprof.dev/sidecar_image"
  const SCRAPE_URL_KEY: string := "profiler.pprof.dev/scrape_url"
  const S3_ENDPOINT_KEY: string := "profiler.pprof.dev/s3_endpoint"
  const S3_FORCE_PATH_STYLE_KEY: string := "profiler.pprof.dev/s3_force_path_style"
  const AUTH_TYPE_KEY: string := "profiler.pprof.dev/scrape_auth_type"
  const AUTH_USERNAME_KEY: string := "profiler.pprof.dev/scrape_auth_username"
  const AUTH_PASSWORD_KEY: string := "profiler.pprof.dev/scrape_auth_password"
  const AUTH_SECRET_KEY: string := "profiler.pprof.dev/scrape_auth_secret"
  const AUTH_SECRET_USERNAME_KEY: string := "profiler.pprof.dev/scrape_auth_username_key"
  const AUTH_SECRET_PASSWORD_KEY: string := "profiler.pprof.dev/scrape_auth_password_key"
  const DEBUG_KEY: string := "profiler.pprof.dev/debug"
  const METRICS_PORT_KEY: string := "profiler.pprof.dev/sidecar_metrics_port"

  const SIDECAR_NAME: string := "pprof-sidecar"
  const DEFAULT_IMAGE: string := "ghcr.io/maulindesai/pprof-operator/pprof-sidecar:latest"
  const SIDECAR_REMAINDER: string :=
    "IfNotPresent; requests cpu 100m, memory 128Mi; limits cpu 200m, memory 256Mi"
  const DEFAULT_METRICS_PORT: int := 8080

  const NAME_FIELD: string := "metadata.name"
  const NAMESPACE_FIELD: string := "metadata.namespace"
  const DEBUG_LEVEL: string := "debug"
  const TRUE_TEXT: string := "true"
  const ACCESS_KEY: string := "AWS_ACCESS_KEY_ID"
  const SECRET_KEY: string := "AWS_SECRET_ACCESS_KEY"

  /** A container of a pod; `remainder` stands for every field that nothing here reads. */
  datatype Container = Container(
    name: string, image: string, env: seq<EnvVar>, ports: seq<Api.int32>, remainder: string)

  datatype Pod = Pod(annotations: map<string, string>, containers: seq<Container>)

  /** Reading a Go map: the zero value for a missing key. */
  function Annotation(pod: Pod, key: string): string {
    if key in pod.annotations then pod.annotations[key] else ""
  }

  // ---- where the basic-auth login comes from ----

  datatype LoginSource =
    | Pair(username: string, password: string)
    | InSecret(name: string, usernameKey: string, passwordKey: string)

  function AnnotationPair(pod: Pod): Option<LoginSource> {
    var username, password := Annotation(pod, AUTH_USERNAME_KEY), Annotation(pod, AUTH_PASSWORD_KEY);
    if username != "" && password != "" then Some(Pair(username, password)) else None
  }

  function AnnotationSecret(pod: Pod): Option<LoginSource> {
    var secret := Annotation(pod, AUTH_SECRET_KEY);
    if secret == "" then None
    else Some(InSecret(secret,
                       OrElse(Annotation(pod, AUTH_SECRET_USERNAME_KEY), "username"),
                       OrElse(Annotation(pod, AUTH_SECRET_PASSWORD_KEY), "password")))
  }

  function CRDBasicAuth(spec: Api.ProfilerSpec): Option<Api.BasicAuth> {
    if spec.scrapTarget.Some? && spec.scrapTarget.value.auth.Some?
    then spec.scrapTarget.value.auth.value.basicAuth
    else None
  }

  function CRDPair(spec: Api.ProfilerSpec): Option<LoginSource> {
    var b := CRDBasicAuth(spec);
    if b.Some? && b.value.username != "" && b.value.password != ""
    then Some(Pair(b.value.username, b.value.password))
    else None
  }

  function CRDSecret(spec: Api.ProfilerSpec): Option<LoginSource> {
    var b := CRDBasicAuth(spec);
    if b.Some? && b.value.secretRef.Some? && b.value.secretRef.value.name != "" then
      var ref := b.value.secretRef.value;
      Some(InSecret(ref.name, OrElse(ref.usernameKey, "username"), OrElse(ref.passwordKey, "password")))
    else None
  }

  function FirstUsable(sources: seq<Option<LoginSource>>): Option<LoginSource> {
    if sources == [] then None
    else if sources[0].Some? then sources[0]
    else FirstUsable(sources[1..])
  }

  /** The documented order: annotations before the resource, plain values before a secret. */
  function Login(spec: Api.ProfilerSpec, pod: Pod): Option<LoginSource> {
    FirstUsable([AnnotationPair(pod), AnnotationSecret(pod), CRDPair(spec), CRDSecret(spec)])
  }

  /** The effective authentication type: a non-empty annotation, else the resource's. */
  function AuthType(spec: Api.ProfilerSpec, pod: Pod): string {
    if Annotation(pod, AUTH_TYPE_KEY) != "" then Annotation(pod, AUTH_TYPE_KEY)
    else if spec.scrapTarget.Some? && spec.scrapTarget.value.auth.Some?
    then spec.scrapTarget.value.auth.value.authType
    else ""
  }

  function ScrapeURL(spec: Api.ProfilerSpec, pod: Pod): string {
    if Annotation(pod, SCRAPE_URL_KEY) != "" then Annotation(pod, SCRAPE_URL_KEY)
    else if spec.scrapTarget.Some? then spec.scrapTarget.value.scrapeURL
    else ""
  }

  // ---- metrics port, debug switch, target ----

  /** The annotation's number when it is a port, otherwise the default. */
  function MetricsPort(pod: Pod): (port: Api.int32)
    ensures 1 <= port <= 65535
  {
    var p := Atoi(TrimSpace(Annotation(pod, METRICS_PORT_KEY)));
    if p.Some? && 1 <= p.value <= 65535 then p.value else DEFAULT_METRICS_PORT
  }

  function LowerChar(c: char): char {
    if 'A' <= c <= 'Z' then (c as int + 32) as char else c
  }

  /** Lower case of the ASCII letters; no other character's lower case occurs in the words tested. */
  function Lower(s: string): string {
    seq(|s|, i requires 0 <= i < |s| => LowerChar(s[i]))
  }

  predicate DebugRequested(pod: Pod) {
    var v := Lower(TrimSpace(Annotation(pod, DEBUG_KEY)));
    v == "true" || v == "1" || v == "debug"
  }

  function Target(pod: Pod): Option<string> {
    if Annotation(pod, TARGET_CONTAINER_KEY) != "" then Some(Annotation(pod, TARGET_CONTAINER_KEY))
    else if pod.containers != [] then Some(pod.containers[0].name)
    else None
  }

  // ---- the specification of the environment ----

  function Number(n: Option<Api.int32>): Option<EnvSource> {
    if n.Some? then Some(Literal(Print(n.value))) else None
  }

  function Text(s: string): Option<EnvSource> {
    if s != "" then Some(Literal(s)) else None
  }

  /** An AWS credential: from the named secret, else inline when both parts are, else absent. */
  function AWSCredential(spec: Api.ProfilerSpec, key: string, inline: string): Option<EnvSource> {
    if spec.awsCredentialsSecret != "" then Some(SecretKey(spec.awsCredentialsSecret, key))
    else if spec.awsAccessKeyId != "" && spec.awsSecretAccessKey != "" then Some(Literal(inline))
    else None
  }

  function LoginPart(spec: Api.ProfilerSpec, pod: Pod, username: bool): Option<EnvSource> {
    if AuthType(spec, pod) != Api.AUTH_TYPE_BASIC then None
    else
      match Login(spec, pod)
      case None => None
      case Some(Pair(u, p)) => Some(Literal(if username then u else p))
      case Some(InSecret(n, u, p)) => Some(SecretKey(n, if username then u else p))
  }

  /** A variable's place in the builder's order. */
  function Rank(n: EnvName): nat {
    match n
    case TARGET_CONTAINER => 0 case POD_NAME => 1 case POD_NAMESPACE => 2
    case CPU_THRESHOLD => 3 case MEMORY_THRESHOLD => 4 case PROFILE_DURATION => 5 case MONITORING_PERIOD => 6
    case S3_BUCKET => 7 case S3_REGION => 8 case S3_PATH_PREFIX => 9
    case AWS_ACCESS_KEY_ID => 10 case AWS_SECRET_ACCESS_KEY => 11
    case SCRAPE_URL => 12 case AUTH_TYPE => 13 case AUTH_USERNAME => 14 case AUTH_PASSWORD => 15
    case S3_ENDPOINT => 16 case S3_FORCE_PATH_STYLE => 17 case LOG_LEVEL => 18 case DEBUG => 19
    case METRICS_ADDR => 20
  }

  /** The settings take consecutive places, so no name occurs twice. */
  ghost predicate Ranked(settings: seq<Setting>, first: nat) {
    forall i | 0 <= i < |settings| :: Rank(settings[i].name) == first + i
  }

  function IdentitySettings(target: string): (r: seq<Setting>)
    ensures |r| == 3
  {
    [ Setting(TARGET_CONTAINER, Some(Literal(target))),
      Setting(POD_NAME, Some(FieldRef(NAME_FIELD))),
      Setting(POD_NAMESPACE, Some(FieldRef(NAMESPACE_FIELD))) ]
  }

  function PeriodSource(spec: Api.ProfilerSpec): Option<EnvSource> {
    if spec.monitoringPeriod != 0 then Number(Some(spec.monitoringPeriod)) else None
  }

  /** The profile duration is never set: the sidecar always runs with its default. */
  function ThresholdSettings(spec: Api.ProfilerSpec): (r: seq<Setting>)
    ensures |r| == 4
  {
    [ Setting(CPU_THRESHOLD, Number(spec.cpuThreshold)),
      Setting(MEMORY_THRESHOLD, Number(spec.memoryThreshold)),
      Setting(PROFILE_DURATION, None),
      Setting(MONITORING_PERIOD, PeriodSource(spec)) ]
  }

  function StorageSettings(spec: Api.ProfilerSpec): (r: seq<Setting>)
    ensures |r| == 3
  {
    [ Setting(S3_BUCKET, Some(Literal(spec.s3Bucket))),
      Setting(S3_REGION, Some(Literal(spec.s3Region))),
      Setting(S3_PATH_PREFIX, Some(Literal(spec.s3PathPrefix))) ]
  }

  function CredentialSettings(spec: Api.ProfilerSpec): (r: seq<Setting>)
    ensures |r| == 2
  {
    [ Setting(AWS_ACCESS_KEY_ID, AWSCredential(spec, ACCESS_KEY, spec.awsAccessKeyId)),
      Setting(AWS_SECRET_ACCESS_KEY, AWSCredential(spec, SECRET_KEY, spec.awsSecretAccessKey)) ]
  }

  function URLSettings(spec: Api.ProfilerSpec, pod: Pod): (r: seq<Setting>)
    ensures |r| == 2
  {
    [ Setting(SCRAPE_URL, Text(ScrapeURL(spec, pod))),
      Setting(AUTH_TYPE, Text(AuthType(spec, pod))) ]
  }

  function LoginSettings(spec: Api.ProfilerSpec, pod: Pod): (r: seq<Setting>)
    ensures |r| == 2
  {
    [ Setting(AUTH_USERNAME, LoginPart(spec, pod, true)),
      Setting(AUTH_PASSWORD, LoginPart(spec, pod, false)) ]
  }

  function EndpointSettings(pod: Pod): (r: seq<Setting>)
    ensures |r| == 2
  {
    [ Setting(S3_ENDPOINT, Text(Annotation(pod, S3_ENDPOINT_KEY))),
      Setting(S3_FORCE_PATH_STYLE, Text(Annotation(pod, S3_FORCE_PATH_STYLE_KEY))) ]
  }

  function MetricsAddress(port: int): string {
    ":" + Print(port)
  }

  function DebugSource(pod: Pod, text: string): Option<EnvSource> {
    if DebugRequested(pod) then Some(Literal(text)) else None
  }

  function ProcessSettings(pod: Pod): (r: seq<Setting>)
    ensures |r| == 3
  {
    [ Setting(LOG_LEVEL, DebugSource(pod, DEBUG_LEVEL)),
      Setting(DEBUG, DebugSource(pod, TRUE_TEXT)),
      Setting(METRICS_ADDR, Some(Literal(MetricsAddress(MetricsPort(pod))))) ]
  }

  /** What the sidecar's environment should hold, setting by setting, in the builder's order. */
  function IntendedSettings(spec: Api.ProfilerSpec, pod: Pod, target: string): seq<Setting> {
    IdentitySettings(target) + ThresholdSettings(spec) + StorageSettings(spec) + CredentialSettings(spec)
    + URLSettings(spec, pod) + LoginSettings(spec, pod) + EndpointSettings(pod) + ProcessSettings(pod)
  }

  lemma RankedConcat(a: seq<Setting>, b: seq<Setting>, first: nat)
    requires Ranked(a, first) && Ranked(b, first + |a|)
    ensures Ranked(a + b, first)
  {
  }

  lemma RankedParts(
    a: seq<Setting>, b: seq<Setting>, c: seq<Setting>, d: seq<Setting>,
    e: seq<Setting>, f: seq<Setting>, g: seq<Setting>, h: seq<Setting>)
    requires |a| == 3 && |b| == 4 && |c| == 3 && |d| == 2 && |e| == 2 && |f| == 2 && |g| == 2
    requires Ranked(a, 0) && Ranked(b, 3) && Ranked(c, 7) && Ranked(d, 10)
    requires Ranked(e, 12) && Ranked(f, 14) && Ranked(g, 16) && Ranked(h, 18)
    ensures Ranked(a + b + c + d + e + f + g + h, 0)
    ensures DistinctSettings(a + b + c + d + e + f + g + h)
  {
    RankedConcat(a, b, 0);
    RankedConcat(a + b, c, 0);
    RankedConcat(a + b + c, d, 0);
    RankedConcat(a + b + c + d, e, 0);
    RankedConcat(a + b + c + d + e, f, 0);
    RankedConcat(a + b + c + d + e + f, g, 0);
    RankedConcat(a + b + c + d + e + f + g, h, 0);
  }

  /** No variable is intended twice: the list follows the builder's order. */
  lemma IntendedNamesDistinct(spec: Api.ProfilerSpec, pod: Pod, target: string)
    ensures Ranked(IntendedSettings(spec, pod, target), 0)
    ensures DistinctSettings(IntendedSettings(spec, pod, target))
  {
    hide Number, PeriodSource, AWSCredential, Text, ScrapeURL, AuthType, LoginPart, Annotation, DebugSource,
         MetricsAddress, MetricsPort;
    RankedParts(IdentitySettings(target), ThresholdSettings(spec), StorageSettings(spec), CredentialSettings(spec),
                URLSettings(spec, pod), LoginSettings(spec, pod), EndpointSettings(pod), ProcessSettings(pod));
  }

  // ---- the builders ----

  method GetConfiguredCPUThreshold(spec: Api.ProfilerSpec) returns (envVars: seq<EnvVar>)
    ensures envVars == Present([Setting(CPU_THRESHOLD, Number(spec.cpuThreshold))])
  {
    envVars := [];
    PresentOne(Setting(CPU_THRESHOLD, Number(spec.cpuThreshold)));
    if spec.cpuThreshold.Some? {
      envVars := envVars + [EnvVar(CPU_THRESHOLD, Literal(Print(spec.cpuThreshold.value)))];
    }
  }

  method GetConfiguredMemoryThreshold(spec: Api.ProfilerSpec) returns (envVars: seq<EnvVar>)
    ensures envVars == Present([Setting(MEMORY_THRESHOLD, Number(spec.memoryThreshold))])
  {
    envVars := [];
    PresentOne(Setting(MEMORY_THRESHOLD, Number(spec.memoryThreshold)));
    if spec.memoryThreshold.Some? {
      envVars := envVars + [EnvVar(MEMORY_THRESHOLD, Literal(Print(spec.memoryThreshold.value)))];
    }
  }

  /** Zero counts as not configured. */
  method GetConfiguredMonitoringPeriod(spec: Api.ProfilerSpec) returns (envVars: seq<EnvVar>)
    ensures envVars == Present([Setting(MONITORING_PERIOD, PeriodSource(spec))])
  {
    envVars := [];
    PresentOne(Setting(MONITORING_PERIOD, PeriodSource(spec)));
    if spec.monitoringPeriod != 0 {
      envVars := envVars + [EnvVar(MONITORING_PERIOD, Literal(Print(spec.monitoringPeriod)))];
    }
  }

  method GetAWSConfiguration(spec: Api.ProfilerSpec) returns (envVars: seq<EnvVar>)
    ensures envVars == Present(StorageSettings(spec) + CredentialSettings(spec))
  {
    ghost var storage, credentials := StorageSettings(spec), CredentialSettings(spec);
    PresentConcat(storage, credentials);
    PresentThree(storage[0], storage[1], storage[2]);
    PresentTwo(credentials[0], credentials[1]);
    PresentOne(storage[0]);
    PresentOne(storage[1]);
    PresentOne(storage[2]);
    PresentOne(credentials[0]);
    PresentOne(credentials[1]);
    envVars := [
      EnvVar(S3_BUCKET, Literal(spec.s3Bucket)),
      EnvVar(S3_REGION, Literal(spec.s3Region)),
      EnvVar(S3_PATH_PREFIX, Literal(spec.s3PathPrefix))
    ];
    if spec.awsCredentialsSecret != "" {
      envVars := envVars + [
        EnvVar(AWS_ACCESS_KEY_ID, SecretKey(spec.awsCredentialsSecret, ACCESS_KEY)),
        EnvVar(AWS_SECRET_ACCESS_KEY, SecretKey(spec.awsCredentialsSecret, SECRET_KEY))
      ];
    } else if spec.awsAccessKeyId != "" && spec.awsSecretAccessKey != "" {
      envVars := envVars + [
        EnvVar(AWS_ACCESS_KEY_ID, Literal(spec.awsAccessKeyId)),
        EnvVar(AWS_SECRET_ACCESS_KEY, Literal(spec.awsSecretAccessKey))
      ];
    }
  }

  method GetScrapeTargetURL(spec: Api.ProfilerSpec, pod: Pod) returns (envVars: seq<EnvVar>)
    ensures envVars == Present([Setting(SCRAPE_URL, Text(ScrapeURL(spec, pod)))])
  {
    envVars := [];
    PresentOne(Setting(SCRAPE_URL, Text(ScrapeURL(spec, pod))));
    if SCRAPE_URL_KEY in pod.annotations && pod.annotations[SCRAPE_URL_KEY] != "" {
      envVars := envVars + [EnvVar(SCRAPE_URL, Literal(pod.annotations[SCRAPE_URL_KEY]))];
      return;
    }
    if spec.scrapTarget.Some? && spec.scrapTarget.value.scrapeURL != "" {
      envVars := envVars + [EnvVar(SCRAPE_URL, Literal(spec.scrapTarget.value.scrapeURL))];
      return;
    }
  }

  /** The resource's login as getCRDAuth reports it: plain values, or a secret, or nothing. */
  function GetCRDAuth(spec: Api.ProfilerSpec): Option<LoginSource> {
    var b := CRDBasicAuth(spec);
    if b.None? then None
    else if b.value.username != "" && b.value.password != "" then
      Some(Pair(b.value.username, b.value.password))
    else if b.value.secretRef.Some? && b.value.secretRef.value.name != "" then CRDSecret(spec)
    else None
  }

  function BuildLoginEnvVars(source: LoginSource): seq<EnvVar> {
    match source
    case Pair(u, p) => [EnvVar(AUTH_USERNAME, Literal(u)), EnvVar(AUTH_PASSWORD, Literal(p))]
    case InSecret(n, u, p) => [EnvVar(AUTH_USERNAME, SecretKey(n, u)), EnvVar(AUTH_PASSWORD, SecretKey(n, p))]
  }

  function GetScrapeTargetBasicAuth(spec: Api.ProfilerSpec, pod: Pod): seq<EnvVar> {
    if AnnotationPair(pod).Some? then BuildLoginEnvVars(AnnotationPair(pod).value)
    else if AnnotationSecret(pod).Some? then BuildLoginEnvVars(AnnotationSecret(pod).value)
    else if GetCRDAuth(spec).Some? then BuildLoginEnvVars(GetCRDAuth(spec).value)
    else []
  }

  lemma FirstUsableOfFour(
    a: Option<LoginSource>, b: Option<LoginSource>, c: Option<LoginSource>, d: Option<LoginSource>)
    ensures FirstUsable([a, b, c, d]) == if a.Some? then a else if b.Some? then b else if c.Some? then c else d
  {
    assert [d][1..] == [];
    assert FirstUsable([d]) == d;
    assert [c, d][1..] == [d];
    assert FirstUsable([c, d]) == if c.Some? then c else d;
    assert [b, c, d][1..] == [c, d];
    assert [a, b, c, d][1..] == [b, c, d];
  }

  /** The chain of early returns picks the first usable source of the documented order, and takes
      both variables from it. */
  lemma BasicAuthUsesFirstUsable(spec: Api.ProfilerSpec, pod: Pod)
    ensures GetScrapeTargetBasicAuth(spec, pod)
            == if Login(spec, pod).Some? then BuildLoginEnvVars(Login(spec, pod).value) else []
  {
    FirstUsableOfFour(AnnotationPair(pod), AnnotationSecret(pod), CRDPair(spec), CRDSecret(spec));
  }

  lemma LoginPresent(spec: Api.ProfilerSpec, pod: Pod)
    ensures Present(LoginSettings(spec, pod))
            == if AuthType(spec, pod) == Api.AUTH_TYPE_BASIC then GetScrapeTargetBasicAuth(spec, pod) else []
  {
    var login := LoginSettings(spec, pod);
    PresentTwo(login[0], login[1]);
    PresentOne(login[0]);
    PresentOne(login[1]);
    BasicAuthUsesFirstUsable(spec, pod);
  }

  method GetScrapeTargetConfiguration(spec: Api.ProfilerSpec, pod: Pod) returns (envVars: seq<EnvVar>)
    ensures envVars == Present(URLSettings(spec, pod) + LoginSettings(spec, pod))
  {
    ghost var url := URLSettings(spec, pod);
    PresentConcat(url, LoginSettings(spec, pod));
    PresentTwo(url[0], url[1]);
    PresentOne(url[1]);
    LoginPresent(spec, pod);
    envVars := GetScrapeTargetURL(spec, pod);
    var authType := AuthType(spec, pod);
    if authType != "" {
      envVars := envVars + [EnvVar(AUTH_TYPE, Literal(authType))];
      if authType == Api.AUTH_TYPE_BASIC {
        envVars := envVars + GetScrapeTargetBasicAuth(spec, pod);
      }
    }
  }

  /** The annotation override when it parses to a port, else the default. */
  method ReadMetricsPort(pod: Pod) returns (metricsPort: Api.int32)
    ensures metricsPort == MetricsPort(pod)
  {
    metricsPort := DEFAULT_METRICS_PORT;
    if METRICS_PORT_KEY in pod.annotations && TrimSpace(pod.annotations[METRICS_PORT_KEY]) != "" {
      var p := Atoi(TrimSpace(pod.annotations[METRICS_PORT_KEY]));
      if p.Some? && 0 < p.value <= 65535 {
        metricsPort := p.value;
      }
    }
  }

  /** The storage endpoint and path style, which the builder reads off annotations. */
  method EndpointVariables(pod: Pod) returns (env: seq<EnvVar>)
    ensures env == Present(EndpointSettings(pod))
  {
    ghost var settings := EndpointSettings(pod);
    PresentTwo(settings[0], settings[1]);
    PresentOne(settings[0]);
    PresentOne(settings[1]);
    env := [];
    if S3_ENDPOINT_KEY in pod.annotations && pod.annotations[S3_ENDPOINT_KEY] != "" {
      env := env + [EnvVar(S3_ENDPOINT, Literal(pod.annotations[S3_ENDPOINT_KEY]))];
    }
    if S3_FORCE_PATH_STYLE_KEY in pod.annotations && pod.annotations[S3_FORCE_PATH_STYLE_KEY] != "" {
      env := env + [EnvVar(S3_FORCE_PATH_STYLE, Literal(pod.annotations[S3_FORCE_PATH_STYLE_KEY]))];
    }
  }

  /** Debug logging on request, then the metrics address. */
  method ProcessVariables(pod: Pod, metricsPort: Api.int32) returns (env: seq<EnvVar>)
    requires metricsPort == MetricsPort(pod)
    ensures env == Present(ProcessSettings(pod))
  {
    ghost var settings := ProcessSettings(pod);
    PresentThree(settings[0], settings[1], settings[2]);
    PresentOne(settings[0]);
    PresentOne(settings[1]);
    PresentOne(settings[2]);
    env := [];
    if DebugRequested(pod) {
      env := env + [EnvVar(LOG_LEVEL, Literal(DEBUG_LEVEL))];
      env := env + [EnvVar(DEBUG, Literal(TRUE_TEXT))];
    }
    env := env + [EnvVar(METRICS_ADDR, Literal(":" + Print(metricsPort)))];
  }

  /** The three variables the container literal starts with. */
  method IdentityVariables(targetContainer: string) returns (env: seq<EnvVar>)
    ensures env == Present(IdentitySettings(targetContainer))
  {
    ghost var settings := IdentitySettings(targetContainer);
    PresentThree(settings[0], settings[1], settings[2]);
    PresentOne(settings[0]);
    PresentOne(settings[1]);
    PresentOne(settings[2]);
    env := [
      EnvVar(TARGET_CONTAINER, Literal(targetContainer)),
      EnvVar(POD_NAME, FieldRef(NAME_FIELD)),
      EnvVar(POD_NAMESPACE, FieldRef(NAMESPACE_FIELD))
    ];
  }

  function SidecarImage(pod: Pod): string {
    var image := TrimSpace(Annotation(pod, SIDECAR_IMAGE_KEY));
    if image != "" then image else DEFAULT_IMAGE
  }

  /** A sidecar container built for this Profiler and pod. */
  ghost predicate IsSidecarFor(c: Container, spec: Api.ProfilerSpec, pod: Pod) {
    && Target(pod).Some?
    && c == Container(SIDECAR_NAME, SidecarImage(pod), Present(IntendedSettings(spec, pod, Target(pod).value)),
                      [MetricsPort(pod)], SIDECAR_REMAINDER)
  }

  lemma ThresholdsPresent(spec: Api.ProfilerSpec)
    ensures Present(ThresholdSettings(spec))
            == Present([Setting(CPU_THRESHOLD, Number(spec.cpuThreshold))])
               + Present([Setting(MEMORY_THRESHOLD, Number(spec.memoryThreshold))])
               + Present([Setting(MONITORING_PERIOD, PeriodSource(spec))])
  {
    var s := ThresholdSettings(spec);
    assert s == [s[0], s[1], s[2]] + [s[3]];
    PresentConcat([s[0], s[1], s[2]], [s[3]]);
    PresentThree(s[0], s[1], s[2]);
    PresentOne(s[2]);
  }

  lemma PresentOfParts(
    a: seq<Setting>, b: seq<Setting>, c: seq<Setting>, d: seq<Setting>,
    e: seq<Setting>, f: seq<Setting>, g: seq<Setting>, h: seq<Setting>)
    ensures Present(a + b + c + d + e + f + g + h)
            == Present(a) + Present(b) + Present(c + d) + Present(e + f) + Present(g) + Present(h)
  {
    assert a + b + c + d + e + f + g + h == a + b + (c + d) + (e + f) + g + h;
    PresentConcat(a + b + (c + d) + (e + f) + g, h);
    PresentConcat(a + b + (c + d) + (e + f), g);
    PresentConcat(a + b + (c + d), e + f);
    PresentConcat(a + b, c + d);
    PresentConcat(a, b);
  }

  lemma PresentOfAll(spec: Api.ProfilerSpec, pod: Pod, target: string)
    ensures Present(IntendedSettings(spec, pod, target))
            == Present(IdentitySettings(target)) + Present(ThresholdSettings(spec))
               + Present(StorageSettings(spec) + CredentialSettings(spec))
               + Present(URLSettings(spec, pod) + LoginSettings(spec, pod))
               + Present(EndpointSettings(pod)) + Present(ProcessSettings(pod))
  {
    PresentOfParts(IdentitySettings(target), ThresholdSettings(spec), StorageSettings(spec), CredentialSettings(spec),
                   URLSettings(spec, pod), LoginSettings(spec, pod), EndpointSettings(pod), ProcessSettings(pod));
  }

  lemma Associate(a: seq<EnvVar>, b: seq<EnvVar>, c: seq<EnvVar>, d: seq<EnvVar>)
    ensures a + b + c + d == a + (b + c + d)
  {
  }

  /** The successive appends to the container's environment. */
  method BuildEnv(spec: Api.ProfilerSpec, pod: Pod, targetContainer: string) returns (env: seq<EnvVar>)
    ensures env == Present(IntendedSettings(spec, pod, targetContainer))
  {
    env := IdentityVariables(targetContainer);
    var cpuThresholdEnvVars := GetConfiguredCPUThreshold(spec);
    env := env + cpuThresholdEnvVars;
    var memoryThresholdEnvVars := GetConfiguredMemoryThreshold(spec);
    env := env + memoryThresholdEnvVars;
    var monitoringPeriodEnvVars := GetConfiguredMonitoringPeriod(spec);
    env := env + monitoringPeriodEnvVars;
    var awsConfigEnvVars := GetAWSConfiguration(spec);
    env := env + awsConfigEnvVars;
    var scrapConfigEnvVars := GetScrapeTargetConfiguration(spec, pod);
    env := env + scrapConfigEnvVars;
    var endpointEnvVars := EndpointVariables(pod);
    env := env + endpointEnvVars;
    var metricsPort := ReadMetricsPort(pod);
    var processEnvVars := ProcessVariables(pod, metricsPort);
    env := env + processEnvVars;
    ThresholdsPresent(spec);
    PresentOfAll(spec, pod, targetContainer);
    Associate(Present(IdentitySettings(targetContainer)), cpuThresholdEnvVars, memoryThresholdEnvVars,
              monitoringPeriodEnvVars);
  }

  /** An error exactly when the pod offers no target; otherwise the intended sidecar. */
  method BuildProfilerSidecar(spec: Api.ProfilerSpec, pod: Pod) returns (r: Option<Container>)
    ensures r.None? <==> Annotation(pod, TARGET_CONTAINER_KEY) == "" && pod.containers == []
    ensures r.Some? ==> IsSidecarFor(r.value, spec, pod)
  {
    var targetContainer := Annotation(pod, TARGET_CONTAINER_KEY);
    if targetContainer == "" {
      if |pod.containers| == 0 {
        return None;
      }
      targetContainer := pod.containers[0].name;
    }
    var sidecarImage := DEFAULT_IMAGE;
    if SIDECAR_IMAGE_KEY in pod.annotations && TrimSpace(pod.annotations[SIDECAR_IMAGE_KEY]) != "" {
      sidecarImage := TrimSpace(pod.annotations[SIDECAR_IMAGE_KEY]);
    }
    var env := BuildEnv(spec, pod, targetContainer);
    var metricsPort := ReadMetricsPort(pod);
    r := Some(Container(SIDECAR_NAME, sidecarImage, env, [metricsPort], SIDECAR_REMAINDER));
  }
}
