/**
 Which value wins, from what a user writes to what the sidecar does with it: annotations by their full
 names, resource fields and literal defaults on one side, the loaded settings and the profile request
 on the other.
 */
module Precedence {
  import opened Prelude
  import opened Decimal
  import opened SidecarEnv
  import opened SidecarBuilder
  import opened ConfigRoundTrip
  import opened Collector
  import opened EndToEnd
  import Sidecar = SidecarConfig
  import Api

  /** The annotation is missing or empty. */
  predicate Blank(pod: Pod, key: string) {
    key !in pod.annotations || pod.annotations[key] == ""
  }

  /** A sidecar built for the pod loads these settings. */
  ghost predicate Runs(
    spec: Api.ProfilerSpec, pod: Pod, c: Container, resolver: Resolver, host: Sidecar.Host, config: Sidecar.Config)
  {
    && IsSidecarFor(c, spec, pod)
    && Sidecar.Loaded(ProcessEnv(c.env, resolver), host) == Ok(config)
  }

  /** The container watched: the annotated one, else the pod's first; identity from the pod itself. */
  lemma IdentityInForce(
    spec: Api.ProfilerSpec, pod: Pod, c: Container, resolver: Resolver, host: Sidecar.Host, config: Sidecar.Config)
    requires Runs(spec, pod, c, resolver, host, config)
    ensures !Blank(pod, "profiler.pprof.dev/target_container") ==>
              config.targetContainer == pod.annotations["profiler.pprof.dev/target_container"]
    ensures Blank(pod, "profiler.pprof.dev/target_container") ==>
              pod.containers != [] && config.targetContainer == pod.containers[0].name
    ensures resolver.field("metadata.name") != "" ==> config.podName == resolver.field("metadata.name")
    ensures resolver.field("metadata.name") == "" ==>
              config.podName == match host.hostname { case Some(h) => h case None => "" }
    ensures config.namespace == if resolver.field("metadata.namespace") == "" then "default"
                                else resolver.field("metadata.namespace")
  {
    RoundTrip(spec, pod, c, resolver, host);
  }

  /** Numbers come from the resource alone; the profile duration is always the default. */
  lemma NumbersInForce(
    spec: Api.ProfilerSpec, pod: Pod, c: Container, resolver: Resolver, host: Sidecar.Host, config: Sidecar.Config)
    requires Runs(spec, pod, c, resolver, host, config)
    ensures config.cpuThreshold == match spec.cpuThreshold { case Some(t) => t case None => 80 }
    ensures config.memoryThreshold == match spec.memoryThreshold { case Some(t) => t case None => 80 }
    ensures config.profileDuration == 30
    ensures config.monitoringPeriod
            == if spec.monitoringPeriod == 0 then 15_000_000_000 else spec.monitoringPeriod * 1_000_000_000
  {
    RoundTrip(spec, pod, c, resolver, host);
  }

  /** Storage: the resource's bucket, region and prefix, the annotations' endpoint and path style; AWS
      credentials from the secret's two keys, else inline when both parts are there, else none. */
  lemma StorageInForce(
    spec: Api.ProfilerSpec, pod: Pod, c: Container, resolver: Resolver, host: Sidecar.Host, config: Sidecar.Config)
    requires Runs(spec, pod, c, resolver, host, config)
    ensures config.s3Bucket == spec.s3Bucket && config.s3PathPrefix == spec.s3PathPrefix
    ensures config.s3Region == if spec.s3Region == "" then "us-west-2" else spec.s3Region
    ensures config.s3Endpoint == if Blank(pod, "profiler.pprof.dev/s3_endpoint") then ""
                                 else pod.annotations["profiler.pprof.dev/s3_endpoint"]
    ensures config.s3ForcePathStyle
            <==> !Blank(pod, "profiler.pprof.dev/s3_force_path_style")
                 && pod.annotations["profiler.pprof.dev/s3_force_path_style"] in {"1", "true", "TRUE", "True"}
    ensures (config.awsAccessKeyID, config.awsSecretKey)
            == if spec.awsCredentialsSecret != "" then
                 (resolver.secret(spec.awsCredentialsSecret, "AWS_ACCESS_KEY_ID"),
                  resolver.secret(spec.awsCredentialsSecret, "AWS_SECRET_ACCESS_KEY"))
               else if spec.awsAccessKeyId != "" && spec.awsSecretAccessKey != "" then
                 (spec.awsAccessKeyId, spec.awsSecretAccessKey)
               else ("", "")
  {
    hide ProcessEnv, IntendedScrapTarget, SidecarImage, IntendedSettings, MetricsPort, Present;
    RoundTrip(spec, pod, c, resolver, host);
  }

  /** The URL scraped: the annotated one, else the resource's, else none. */
  lemma ScrapeURLInForce(
    spec: Api.ProfilerSpec, pod: Pod, c: Container, resolver: Resolver, host: Sidecar.Host, config: Sidecar.Config)
    requires Runs(spec, pod, c, resolver, host, config)
    ensures config.scrapTarget.scrapeURL
            == if !Blank(pod, "profiler.pprof.dev/scrape_url") then pod.annotations["profiler.pprof.dev/scrape_url"]
               else match spec.scrapTarget { case Some(t) => t.scrapeURL case None => "" }
  {
    LoadedTarget(spec, pod, c, resolver, host, config);
  }

  // ---- the login ----

  /** The authentication type is Basic: by annotation, or by the resource where no annotation is set. */
  predicate TypeIsBasic(spec: Api.ProfilerSpec, pod: Pod) {
    if !Blank(pod, "profiler.pprof.dev/scrape_auth_type") then
      pod.annotations["profiler.pprof.dev/scrape_auth_type"] == "Basic"
    else
      match spec.scrapTarget
      case Some(ScrapTarget(_, Some(auth))) => auth.authType == "Basic"
      case _ => false
  }

  predicate LoginAnnotated(pod: Pod) {
    !Blank(pod, "profiler.pprof.dev/scrape_auth_username") && !Blank(pod, "profiler.pprof.dev/scrape_auth_password")
  }

  predicate SecretAnnotated(pod: Pod) {
    !Blank(pod, "profiler.pprof.dev/scrape_auth_secret")
  }

  /** The annotation's text, or the key a secret is read at when it names none. */
  function KeyOr(pod: Pod, annotation: string, default: string): string {
    if Blank(pod, annotation) then default else pod.annotations[annotation]
  }

  /** A request carries a login only when both of its parts are there. */
  function Carried(username: string, password: string): Option<Credentials> {
    if username == "" || password == "" then None else Some(Credentials(username, password))
  }

  lemma RequestCarriesLogin(
    spec: Api.ProfilerSpec, pod: Pod, c: Container, resolver: Resolver, host: Sidecar.Host, config: Sidecar.Config)
    requires Runs(spec, pod, c, resolver, host, config)
    ensures RequestAuth(config.scrapTarget)
            == if TypeIsBasic(spec, pod) && Login(spec, pod).Some? then
                 var v := LoginValues(Login(spec, pod).value, resolver);
                 Carried(v.username, v.password)
               else None
  {
    hide Login, LoginValues;
    assert TypeIsBasic(spec, pod) <==> AuthType(spec, pod) == Api.AUTH_TYPE_BASIC;
    RequestCarriesFirstUsableLogin(spec, pod, c, resolver, host, config);
  }

  lemma LoginIsFirstOfFour(spec: Api.ProfilerSpec, pod: Pod)
    ensures Login(spec, pod)
            == if AnnotationPair(pod).Some? then AnnotationPair(pod)
               else if AnnotationSecret(pod).Some? then AnnotationSecret(pod)
               else if CRDPair(spec).Some? then CRDPair(spec)
               else CRDSecret(spec)
  {
    hide AnnotationPair, AnnotationSecret, CRDPair, CRDSecret;
    FirstUsableOfFour(AnnotationPair(pod), AnnotationSecret(pod), CRDPair(spec), CRDSecret(spec));
  }

  lemma NoLoginUnlessBasic(
    spec: Api.ProfilerSpec, pod: Pod, c: Container, resolver: Resolver, host: Sidecar.Host, config: Sidecar.Config)
    requires Runs(spec, pod, c, resolver, host, config) && !TypeIsBasic(spec, pod)
    ensures RequestAuth(config.scrapTarget) == None
  {
    hide Runs, RequestAuth, Login;
    RequestCarriesLogin(spec, pod, c, resolver, host, config);
    LoginIsFirstOfFour(spec, pod);
  }

  /** Two annotated texts go out as they are, whatever the secret annotation and the resource say. */
  lemma AnnotatedLoginIsSent(
    spec: Api.ProfilerSpec, pod: Pod, c: Container, resolver: Resolver, host: Sidecar.Host, config: Sidecar.Config)
    requires Runs(spec, pod, c, resolver, host, config) && TypeIsBasic(spec, pod)
    requires LoginAnnotated(pod)
    ensures RequestAuth(config.scrapTarget)
            == Some(Credentials(pod.annotations["profiler.pprof.dev/scrape_auth_username"],
                                pod.annotations["profiler.pprof.dev/scrape_auth_password"]))
  {
    hide Runs, RequestAuth, Login;
    RequestCarriesLogin(spec, pod, c, resolver, host, config);
    LoginIsFirstOfFour(spec, pod);
  }

  /** Without both, an annotated secret is read at its annotated keys, `username` and `password` by
      default. */
  lemma AnnotatedSecretIsSent(
    spec: Api.ProfilerSpec, pod: Pod, c: Container, resolver: Resolver, host: Sidecar.Host, config: Sidecar.Config)
    requires Runs(spec, pod, c, resolver, host, config) && TypeIsBasic(spec, pod)
    requires !LoginAnnotated(pod) && SecretAnnotated(pod)
    ensures var secret := pod.annotations["profiler.pprof.dev/scrape_auth_secret"];
            RequestAuth(config.scrapTarget)
            == Carried(
                 resolver.secret(secret, KeyOr(pod, "profiler.pprof.dev/scrape_auth_username_key", "username")),
                 resolver.secret(secret, KeyOr(pod, "profiler.pprof.dev/scrape_auth_password_key", "password")))
  {
    hide Runs, RequestAuth, Login;
    RequestCarriesLogin(spec, pod, c, resolver, host, config);
    LoginIsFirstOfFour(spec, pod);
  }

  /** Without annotations, the resource's two texts go out as they are. */
  lemma ResourceLoginIsSent(
    spec: Api.ProfilerSpec, pod: Pod, c: Container, resolver: Resolver, host: Sidecar.Host, config: Sidecar.Config,
    b: Api.BasicAuth)
    requires Runs(spec, pod, c, resolver, host, config) && TypeIsBasic(spec, pod)
    requires !LoginAnnotated(pod) && !SecretAnnotated(pod)
    requires spec.scrapTarget.Some? && spec.scrapTarget.value.auth.Some?
             && spec.scrapTarget.value.auth.value.basicAuth == Some(b)
    requires b.username != "" && b.password != ""
    ensures RequestAuth(config.scrapTarget) == Some(Credentials(b.username, b.password))
  {
    hide Runs, RequestAuth, Login;
    RequestCarriesLogin(spec, pod, c, resolver, host, config);
    LoginIsFirstOfFour(spec, pod);
  }

  /** Without those, the resource's secret is read at its keys, with the same defaults. */
  lemma ResourceSecretIsSent(
    spec: Api.ProfilerSpec, pod: Pod, c: Container, resolver: Resolver, host: Sidecar.Host, config: Sidecar.Config,
    b: Api.BasicAuth, ref: Api.SecretRef)
    requires Runs(spec, pod, c, resolver, host, config) && TypeIsBasic(spec, pod)
    requires !LoginAnnotated(pod) && !SecretAnnotated(pod)
    requires spec.scrapTarget.Some? && spec.scrapTarget.value.auth.Some?
             && spec.scrapTarget.value.auth.value.basicAuth == Some(b)
    requires (b.username == "" || b.password == "") && b.secretRef == Some(ref) && ref.name != ""
    ensures RequestAuth(config.scrapTarget)
            == Carried(
                 resolver.secret(ref.name, if ref.usernameKey == "" then "username" else ref.usernameKey),
                 resolver.secret(ref.name, if ref.passwordKey == "" then "password" else ref.passwordKey))
  {
    hide Runs, RequestAuth, Login;
    RequestCarriesLogin(spec, pod, c, resolver, host, config);
    LoginIsFirstOfFour(spec, pod);
  }

  /** With none of the four sources there is no login. */
  lemma NoSourceNoLogin(
    spec: Api.ProfilerSpec, pod: Pod, c: Container, resolver: Resolver, host: Sidecar.Host, config: Sidecar.Config)
    requires Runs(spec, pod, c, resolver, host, config)
    requires !LoginAnnotated(pod) && !SecretAnnotated(pod)
    requires match spec.scrapTarget
             case Some(ScrapTarget(_, Some(Auth(_, Some(b))))) =>
               (b.username == "" || b.password == "") && (b.secretRef.None? || b.secretRef.value.name == "")
             case _ => true
    ensures RequestAuth(config.scrapTarget) == None
  {
    hide Runs, RequestAuth, Login;
    RequestCarriesLogin(spec, pod, c, resolver, host, config);
    LoginIsFirstOfFour(spec, pod);
  }

  // ---- the container ----

  /** The text is `word`, each letter in either case. */
  predicate InAnyCase(text: string, word: string) {
    |text| == |word|
    && forall i | 0 <= i < |text| ::
         text[i] == word[i] || ('a' <= word[i] <= 'z' && text[i] as int + 32 == word[i] as int)
  }

  predicate AsksForDebug(pod: Pod) {
    "profiler.pprof.dev/debug" in pod.annotations
    && var text := TrimSpace(pod.annotations["profiler.pprof.dev/debug"]);
       InAnyCase(text, "true") || InAnyCase(text, "1") || InAnyCase(text, "debug")
  }

  lemma LowerExactly(text: string, word: string)
    requires forall i | 0 <= i < |word| :: !('A' <= word[i] <= 'Z')
    ensures Lower(text) == word <==> InAnyCase(text, word)
  {
    if InAnyCase(text, word) {
      assert forall i | 0 <= i < |text| :: Lower(text)[i] == word[i];
    }
    if Lower(text) == word {
      forall i | 0 <= i < |text|
        ensures text[i] == word[i] || ('a' <= word[i] <= 'z' && text[i] as int + 32 == word[i] as int)
      {
        assert Lower(text)[i] == word[i];
      }
    }
  }

  lemma DebugRequestedExactly(pod: Pod)
    ensures DebugRequested(pod) <==> AsksForDebug(pod)
  {
    assert TrimSpace("") == "";
    hide TrimSpace;
    var text := TrimSpace(Annotation(pod, "profiler.pprof.dev/debug"));
    LowerExactly(text, "true");
    LowerExactly(text, "1");
    LowerExactly(text, "debug");
  }

  /** Debug logging is switched on, by both variables, exactly when the annotation asks for it. */
  lemma DebugInForce(spec: Api.ProfilerSpec, pod: Pod, c: Container, resolver: Resolver)
    requires IsSidecarFor(c, spec, pod)
    ensures var env := ProcessEnv(c.env, resolver);
            && Getenv(env, LOG_LEVEL) == (if AsksForDebug(pod) then "debug" else "")
            && Getenv(env, DEBUG) == (if AsksForDebug(pod) then "true" else "")
  {
    DebugRequestedExactly(pod);
    hide DebugRequested, AsksForDebug, ProcessEnv, Getenv;
    Reads(spec, pod, Target(pod).value, resolver, ProcessSettings(pod)[0]);
    Reads(spec, pod, Target(pod).value, resolver, ProcessSettings(pod)[1]);
  }

  /** The image annotated, without the white space around it, else the default. */
  lemma ImageInForce(
    spec: Api.ProfilerSpec, pod: Pod, c: Container, before: string, image: string, after: string)
    requires IsSidecarFor(c, spec, pod)
    requires AllSpace(before) && AllSpace(after)
    requires image == "" || (!IsSpace(image[0]) && !IsSpace(image[|image| - 1]))
    requires if "profiler.pprof.dev/sidecar_image" in pod.annotations then
               pod.annotations["profiler.pprof.dev/sidecar_image"] == before + image + after
             else image == ""
    ensures c.name == "pprof-sidecar"
    ensures c.image == if image == "" then "ghcr.io/maulindesai/pprof-operator/pprof-sidecar:latest" else image
  {
    TrimOfPadded(before, image, after);
    assert TrimSpace("") == "";
    hide TrimSpace;
  }

  /** The port annotated, when the annotation writes one, else 8080. */
  lemma PortInForce(
    spec: Api.ProfilerSpec, pod: Pod, c: Container, before: string, text: string, after: string)
    requires IsSidecarFor(c, spec, pod)
    requires AllSpace(before) && AllSpace(after)
    requires text == "" || (!IsSpace(text[0]) && !IsSpace(text[|text| - 1]))
    requires if "profiler.pprof.dev/sidecar_metrics_port" in pod.annotations then
               pod.annotations["profiler.pprof.dev/sidecar_metrics_port"] == before + text + after
             else text == ""
    ensures |c.ports| == 1
    ensures forall n | 1 <= n <= 65535 && Writes(text, n) :: c.ports[0] == n
    ensures (forall n | 1 <= n <= 65535 :: !Writes(text, n)) ==> c.ports[0] == 8080
  {
    TrimOfPadded(before, text, after);
    assert TrimSpace("") == "";
    hide TrimSpace, Atoi, Writes;
    forall n ensures Atoi(text) == Some(n) <==> IsInt64(n) && Writes(text, n) { AtoiExactly(text, n); }
  }
}
