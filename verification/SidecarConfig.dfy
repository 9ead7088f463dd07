/** The sidecar's side of the pipeline: settings parsed back out of the process environment. */
module SidecarConfig {
  import opened Prelude
  import opened Decimal
  import opened SidecarEnv
  import Api

  const SECOND: int := 1_000_000_000

  const DEFAULT_CPU_THRESHOLD: int := 80
  const DEFAULT_MEMORY_THRESHOLD: int := 80
  const DEFAULT_PROFILE_DURATION: int := 30
  const DEFAULT_MONITORING_PERIOD: int := 15 * SECOND
  const DEFAULT_REGION: string := "us-west-2"
  const DEFAULT_NAMESPACE: string := "default"

  /** What the process finds outside its environment. */
  datatype Host = Host(hostname: Option<string>, inCluster: bool, clientCreated: bool)

  /** os.Hostname, empty when it fails. */
  function Hostname(host: Host): string {
    if host.hostname.Some? then host.hostname.value else ""
  }

  datatype Config = Config(
    targetContainer: string,
    cpuThreshold: int,
    memoryThreshold: int,
    profileDuration: int,
    monitoringPeriod: int,
    s3Bucket: string,
    s3Region: string,
    s3PathPrefix: string,
    s3Endpoint: string,
    s3ForcePathStyle: bool,
    awsAccessKeyID: string,
    awsSecretKey: string,
    namespace: string,
    podName: string,
    scrapTarget: Api.ScrapTarget)

  datatype Error = NoTargetContainer | NoBucket | NotInCluster | NoClient

  /** A number setting: the default when the text is empty or is not an integer. */
  function IntSetting(text: string, default: int): int {
    ValueOr(Atoi(text), default)
  }

  /** Seconds to a Duration, in int64 arithmetic. */
  function Period(text: string): int {
    if Atoi(text).Some? then Wrap64(Atoi(text).value * SECOND) else DEFAULT_MONITORING_PERIOD
  }

  predicate Truthy(text: string) {
    text == "1" || text == "true" || text == "TRUE" || text == "True"
  }

  /** The scrape target; without the Basic type its Auth is a zero struct, which has no BasicAuth. */
  function GetScrapTarget(env: map<EnvName, string>): Api.ScrapTarget {
    var auth :=
      if Getenv(env, AUTH_TYPE) == Api.AUTH_TYPE_BASIC then
        Api.Auth(Api.AUTH_TYPE_BASIC,
                 Some(Api.BasicAuth(Getenv(env, AUTH_USERNAME), Getenv(env, AUTH_PASSWORD), None)))
      else Api.Auth("", None);
    Api.ScrapTarget(Getenv(env, SCRAPE_URL), Some(auth))
  }

  function Settings(env: map<EnvName, string>, host: Host): Config {
    Config(
      Getenv(env, TARGET_CONTAINER),
      IntSetting(Getenv(env, CPU_THRESHOLD), DEFAULT_CPU_THRESHOLD),
      IntSetting(Getenv(env, MEMORY_THRESHOLD), DEFAULT_MEMORY_THRESHOLD),
      IntSetting(Getenv(env, PROFILE_DURATION), DEFAULT_PROFILE_DURATION),
      Period(Getenv(env, MONITORING_PERIOD)),
      Getenv(env, S3_BUCKET),
      OrElse(Getenv(env, S3_REGION), DEFAULT_REGION),
      Getenv(env, S3_PATH_PREFIX),
      Getenv(env, S3_ENDPOINT),
      Truthy(Getenv(env, S3_FORCE_PATH_STYLE)),
      Getenv(env, AWS_ACCESS_KEY_ID),
      Getenv(env, AWS_SECRET_ACCESS_KEY),
      OrElse(Getenv(env, POD_NAMESPACE), DEFAULT_NAMESPACE),
      OrElse(Getenv(env, POD_NAME), Hostname(host)),
      GetScrapTarget(env))
  }

  /** The checks that can stop the sidecar, in order; otherwise its settings. */
  function Loaded(env: map<EnvName, string>, host: Host): Result<Config, Error> {
    if Getenv(env, TARGET_CONTAINER) == "" then Err(NoTargetContainer)
    else if Getenv(env, S3_BUCKET) == "" then Err(NoBucket)
    else if !host.inCluster then Err(NotInCluster)
    else if !host.clientCreated then Err(NoClient)
    else Ok(Settings(env, host))
  }

  /** The block repeated for each number: keep the default unless the text parses. */
  method ReadNumber(text: string, default: int) returns (n: int)
    ensures n == IntSetting(text, default)
  {
    n := default;
    if text != "" {
      var parsed := Atoi(text);
      if parsed.None? {
        n := default;
      } else {
        n := parsed.value;
      }
    }
  }

  method ReadPeriod(text: string) returns (period: int)
    ensures period == Period(text)
  {
    period := DEFAULT_MONITORING_PERIOD;
    if text != "" {
      var seconds := Atoi(text);
      if seconds.Some? {
        period := Wrap64(seconds.value * SECOND);
      }
    }
  }

  method ReadPathStyle(text: string) returns (forced: bool)
    ensures forced == Truthy(text)
  {
    forced := false;
    if text != "" {
      if text == "1" || text == "true" || text == "TRUE" || text == "True" {
        forced := true;
      }
    }
  }

  method LoadConfig(env: map<EnvName, string>, host: Host) returns (r: Result<Config, Error>)
    ensures r == Loaded(env, host)
  {
    var targetContainer := Getenv(env, TARGET_CONTAINER);
    if targetContainer == "" {
      return Err(NoTargetContainer);
    }
    var cpuThreshold := ReadNumber(Getenv(env, CPU_THRESHOLD), DEFAULT_CPU_THRESHOLD);
    var memoryThreshold := ReadNumber(Getenv(env, MEMORY_THRESHOLD), DEFAULT_MEMORY_THRESHOLD);
    var profileDuration := ReadNumber(Getenv(env, PROFILE_DURATION), DEFAULT_PROFILE_DURATION);

    var s3Bucket := Getenv(env, S3_BUCKET);
    if s3Bucket == "" {
      return Err(NoBucket);
    }
    var s3Region := Getenv(env, S3_REGION);
    if s3Region == "" {
      s3Region := DEFAULT_REGION;
    }
    var forcePathStyle := ReadPathStyle(Getenv(env, S3_FORCE_PATH_STYLE));

    var namespace := Getenv(env, POD_NAMESPACE);
    if namespace == "" {
      namespace := DEFAULT_NAMESPACE;
    }
    var podName := Getenv(env, POD_NAME);
    if podName == "" {
      podName := Hostname(host);
    }
    if !host.inCluster {
      return Err(NotInCluster);
    }
    if !host.clientCreated {
      return Err(NoClient);
    }
    var monitoringPeriod := ReadPeriod(Getenv(env, MONITORING_PERIOD));

    return Ok(Config(
      targetContainer, cpuThreshold, memoryThreshold, profileDuration, monitoringPeriod,
      s3Bucket, s3Region, Getenv(env, S3_PATH_PREFIX), Getenv(env, S3_ENDPOINT), forcePathStyle,
      Getenv(env, AWS_ACCESS_KEY_ID), Getenv(env, AWS_SECRET_ACCESS_KEY),
      namespace, podName, GetScrapTarget(env)));
  }

  /** Each number variable governs its own field and no other; a text that is not a 64-bit integer gives
      the field its default. */
  lemma ThresholdsGovernTheirFields(env: map<EnvName, string>, host: Host, config: Config, text: string)
    requires Loaded(env, host) == Ok(config)
    ensures Loaded(env[CPU_THRESHOLD := text], host)
            == Ok(config.(cpuThreshold := match Atoi(text) { case Some(n) => n case None => 80 }))
    ensures Loaded(env[MEMORY_THRESHOLD := text], host)
            == Ok(config.(memoryThreshold := match Atoi(text) { case Some(n) => n case None => 80 }))
  {
    hide Atoi;
  }

  lemma TimesGovernTheirFields(env: map<EnvName, string>, host: Host, config: Config, text: string)
    requires Loaded(env, host) == Ok(config)
    ensures Loaded(env[PROFILE_DURATION := text], host)
            == Ok(config.(profileDuration := match Atoi(text) { case Some(n) => n case None => 30 }))
    ensures Loaded(env[MONITORING_PERIOD := text], host)
            == Ok(config.(monitoringPeriod :=
                            match Atoi(text) { case Some(n) => Wrap64(n * 1_000_000_000) case None => 15_000_000_000 }))
  {
    hide Atoi, Wrap64;
  }

  /** time.NewTicker panics on a duration that is not positive, before the first tick. */
  predicate TickerStarts(config: Config) {
    config.monitoringPeriod > 0
  }

  /** The conversion to nanoseconds is exact precisely up to about 292 years. */
  lemma PeriodExactly(seconds: int)
    requires IsInt64(seconds)
    ensures Period(Print(seconds)) == seconds * SECOND <==> -9223372036 <= seconds <= 9223372036
  {
    AtoiOfPrint(seconds);
    assert IsInt64(seconds * SECOND) <==> -9223372036 <= seconds <= 9223372036;
  }
}
