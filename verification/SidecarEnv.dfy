/**
 The environment that carries settings from the operator's process to the sidecar's: a list of
 variables in the container spec, and what the sidecar process sees of it.
 */
module SidecarEnv {
  import opened Prelude

  /** The variables both sides use; a constructor's name is the variable's name. */
  datatype EnvName =
    | TARGET_CONTAINER | POD_NAME | POD_NAMESPACE
    | CPU_THRESHOLD | MEMORY_THRESHOLD | PROFILE_DURATION | MONITORING_PERIOD
    | S3_BUCKET | S3_REGION | S3_PATH_PREFIX | AWS_ACCESS_KEY_ID | AWS_SECRET_ACCESS_KEY
    | SCRAPE_URL | AUTH_TYPE | AUTH_USERNAME | AUTH_PASSWORD
    | S3_ENDPOINT | S3_FORCE_PATH_STYLE | LOG_LEVEL | DEBUG | METRICS_ADDR

  datatype EnvSource = Literal(text: string) | SecretKey(secret: string, key: string) | FieldRef(path: string)

  datatype EnvVar = EnvVar(name: EnvName, source: EnvSource)

  /** What the cluster answers for a secret's key and for a pod field. */
  datatype Resolver = Resolver(secret: (string, string) -> string, field: string -> string)

  function Resolved(source: EnvSource, resolver: Resolver): string {
    match source
    case Literal(text) => text
    case SecretKey(secret, key) => resolver.secret(secret, key)
    case FieldRef(path) => resolver.field(path)
  }

  /** The list as a table; when a name is repeated the last entry counts. */
  function Table(env: seq<EnvVar>): map<EnvName, EnvSource> {
    if env == [] then map[]
    else Table(env[..|env| - 1])[env[|env| - 1].name := env[|env| - 1].source]
  }

  /** The variables the sidecar process starts with. */
  function ProcessEnv(env: seq<EnvVar>, resolver: Resolver): map<EnvName, string> {
    var table := Table(env);
    map n | n in table :: Resolved(table[n], resolver)
  }

  /** os.Getenv: the empty string for a variable that is not set. */
  function Getenv(env: map<EnvName, string>, name: EnvName): string {
    if name in env then env[name] else ""
  }

  ghost predicate DistinctNames(env: seq<EnvVar>) {
    forall i, j | 0 <= i < j < |env| :: env[i].name != env[j].name
  }

  // ---- settings: variables that may be absent ----

  datatype Setting = Setting(name: EnvName, source: Option<EnvSource>)

  /** The list that sets just the settings with a source, in order. */
  function Present(settings: seq<Setting>): seq<EnvVar> {
    if settings == [] then []
    else
      var last := settings[|settings| - 1];
      Present(settings[..|settings| - 1])
      + (if last.source.Some? then [EnvVar(last.name, last.source.value)] else [])
  }

  lemma {:induction false} PresentConcat(a: seq<Setting>, b: seq<Setting>)
    ensures Present(a + b) == Present(a) + Present(b)
  {
    if b == [] {
      assert a + b == a;
    } else {
      assert (a + b)[..|a + b| - 1] == a + b[..|b| - 1];
      PresentConcat(a, b[..|b| - 1]);
    }
  }

  lemma PresentOne(s: Setting)
    ensures Present([s]) == if s.source.Some? then [EnvVar(s.name, s.source.value)] else []
  {
  }

  lemma PresentTwo(s: Setting, t: Setting)
    ensures Present([s, t]) == Present([s]) + Present([t])
  {
  }

  lemma PresentThree(s: Setting, t: Setting, u: Setting)
    ensures Present([s, t, u]) == Present([s]) + Present([t]) + Present([u])
  {
    assert [s, t, u] == [s, t] + [u];
    PresentConcat([s, t], [u]);
    PresentTwo(s, t);
  }

  ghost predicate DistinctSettings(settings: seq<Setting>) {
    forall i, j | 0 <= i < j < |settings| :: settings[i].name != settings[j].name
  }

  lemma TableOfAppend(env: seq<EnvVar>, v: EnvVar)
    ensures Table(env + [v]) == Table(env)[v.name := v.source]
  {
    assert (env + [v])[..|env|] == env;
  }

  /** Reading one setting of a list with distinct names back out of the table gives its source. */
  lemma {:induction false} LookupPresent(settings: seq<Setting>, n: EnvName)
    requires DistinctSettings(settings)
    ensures n in Table(Present(settings)) ==> Setting(n, Some(Table(Present(settings))[n])) in settings
    ensures forall v | Setting(n, Some(v)) in settings ::
      n in Table(Present(settings)) && Table(Present(settings))[n] == v
    decreases |settings|
  {
    if settings == [] {
    } else {
      var k := |settings| - 1;
      var front, last := settings[..k], settings[k];
      LookupPresent(front, n);
      assert forall s :: s in settings <==> s in front || s == last;
      assert forall s | s in front :: s.name != last.name;
      if last.source.Some? {
        TableOfAppend(Present(front), EnvVar(last.name, last.source.value));
        assert last == Setting(last.name, Some(last.source.value));
      } else {
        assert Present(settings) == Present(front);
      }
    }
  }

  lemma {:induction false} PresentDistinct(settings: seq<Setting>)
    requires DistinctSettings(settings)
    ensures DistinctNames(Present(settings))
    ensures forall v | v in Present(settings) :: exists s | s in settings :: s.name == v.name
  {
    if settings == [] {
    } else {
      var k := |settings| - 1;
      PresentDistinct(settings[..k]);
      forall v | v in Present(settings) ensures exists s | s in settings :: s.name == v.name {
        if v in Present(settings[..k]) {
          var s :| s in settings[..k] && s.name == v.name;
          assert s in settings;
        } else {
          assert settings[k] in settings;
        }
      }
      forall v | v in Present(settings[..k]) ensures v.name != settings[k].name {
        var s :| s in settings[..k] && s.name == v.name;
      }
    }
  }

  /** What the sidecar process reads for a setting: its resolved source, or the empty string. */
  function Seen(source: Option<EnvSource>, resolver: Resolver): string {
    if source.Some? then Resolved(source.value, resolver) else ""
  }

  lemma GetenvOfSetting(settings: seq<Setting>, s: Setting, resolver: Resolver)
    requires DistinctSettings(settings) && s in settings
    ensures Getenv(ProcessEnv(Present(settings), resolver), s.name) == Seen(s.source, resolver)
  {
    LookupPresent(settings, s.name);
    if s.source.None? {
      forall t | t in settings && t.name == s.name ensures t == s {
        var i :| 0 <= i < |settings| && settings[i] == s;
        var j :| 0 <= j < |settings| && settings[j] == t;
        assert i == j;
      }
    }
  }
}
