/**
 One profiling attempt: fetch a profile over HTTP, write it to a temporary file, upload it.  The
 answers of the operating system, the network and the object store are the attempt's `Answers`.
 */
module Collector {
  import opened Prelude
  import opened SidecarConfig
  import opened Timestamp
  import Api

  datatype Kind = CPUProfile | HeapProfile

  /** The path segment, file-name prefix and metric label of a kind. */
  function KindName(kind: Kind): string {
    if kind == CPUProfile then "profile" else "heap"
  }

  /** Whether each external call of one attempt succeeds, and the wall-clock time, in nanoseconds
      since the Unix epoch, at which the file name is made. */
  datatype Answers = Answers(
    makeTempDir: bool, newRequest: bool, send: bool, statusOK: bool, createFile: bool, copyBody: bool,
    awsConfig: bool, openFile: bool, putObject: bool,
    closeUploaded: bool, closeFile: bool, closeBody: bool, removeTempDir: bool,
    stampNanos: nat)

  datatype UploadError = AWSConfig | OpenFile | PutObject | CloseUploaded

  datatype Error =
    | TempDir | NewRequest | Send | Status | CreateFile | WriteFile | NoScrapeURL
    | Upload(cause: UploadError) | RemoveTempDir | CloseBody | CloseFile

  /** The sidecar's process-wide Prometheus metrics. */
  datatype Counters = Counters(
    exceededCPU: nat, exceededMemory: nat, generatedCPU: nat, generatedHeap: nat, uploaded: nat, uploadErrors: nat)

  /** An attempt that was started: its kind, and the tick of the run that started it. */
  datatype Attempt = Attempt(kind: Kind, tick: nat)

  class SidecarMetrics {
    var exceededCPU: nat
    var exceededMemory: nat
    var generatedCPU: nat
    var generatedHeap: nat
    var uploaded: nat
    var uploadErrors: nat

    // Every attempt started in this process, written down where it starts.
    ghost var attempts: seq<Attempt>

    constructor ()
      ensures Value() == Counters(0, 0, 0, 0, 0, 0) && attempts == []
    {
      attempts := [];
      exceededCPU, exceededMemory, generatedCPU, generatedHeap, uploaded, uploadErrors := 0, 0, 0, 0, 0, 0;
    }

    function Value(): Counters
      reads this
    {
      Counters(exceededCPU, exceededMemory, generatedCPU, generatedHeap, uploaded, uploadErrors)
    }
  }

  // ---- what an attempt achieves, stated on its answers ----

  /** The profile reached the temporary file. */
  predicate Collected(config: Config, a: Answers) {
    config.scrapTarget.scrapeURL != ""
    && a.makeTempDir && a.newRequest && a.send && a.statusOK && a.createFile && a.copyBody
  }

  /** The collected profile was handed to the object store. */
  predicate Offered(config: Config, a: Answers) {
    Collected(config, a) && a.awsConfig && a.openFile
  }

  predicate Stored(config: Config, a: Answers) {
    Offered(config, a) && a.putObject
  }

  /** The object store was asked and answered with an error. */
  predicate Refused(config: Config, a: Answers) {
    Offered(config, a) && !a.putObject
  }

  /** The profile was collected but never offered: no counter records what became of it. */
  predicate Stranded(config: Config, a: Answers) {
    Collected(config, a) && !Offered(config, a)
  }

  predicate Requesting(config: Config, a: Answers) {
    a.makeTempDir && config.scrapTarget.scrapeURL != ""
  }

  predicate Answered(config: Config, a: Answers) {
    Requesting(config, a) && a.newRequest && a.send && a.statusOK
  }

  /** The first call that fails decides the error; nothing after it matters, except that a failing
      removal of the directory is an error of its own when all else went well. */
  ghost predicate FailsWith(config: Config, a: Answers, e: Error) {
    match e
    case TempDir => !a.makeTempDir
    case NoScrapeURL => a.makeTempDir && config.scrapTarget.scrapeURL == ""
    case NewRequest => Requesting(config, a) && !a.newRequest
    case Send => Requesting(config, a) && a.newRequest && !a.send
    case Status => Requesting(config, a) && a.newRequest && a.send && !a.statusOK
    case CreateFile => Answered(config, a) && !a.createFile
    case WriteFile => Answered(config, a) && a.createFile && !a.copyBody
    case Upload(AWSConfig) => Collected(config, a) && !a.awsConfig
    case Upload(OpenFile) => Collected(config, a) && a.awsConfig && !a.openFile
    case Upload(PutObject) => Refused(config, a)
    case Upload(CloseUploaded) => false
    case RemoveTempDir => Stored(config, a) && !a.removeTempDir
    case CloseBody => false
    case CloseFile => false
  }

  /** The calls in the order an attempt makes them: the error of the first that fails. */
  function FirstError(config: Config, a: Answers): Option<Error> {
    if !a.makeTempDir then Some(TempDir)
    else if config.scrapTarget.scrapeURL == "" then Some(NoScrapeURL)
    else if !a.newRequest then Some(NewRequest)
    else if !a.send then Some(Send)
    else if !a.statusOK then Some(Status)
    else if !a.createFile then Some(CreateFile)
    else if !a.copyBody then Some(WriteFile)
    else if !a.awsConfig then Some(Upload(AWSConfig))
    else if !a.openFile then Some(Upload(OpenFile))
    else if !a.putObject then Some(Upload(PutObject))
    else if !a.removeTempDir then Some(RemoveTempDir)
    else None
  }

  /** ONE ERROR OR NONE: an attempt fails with the error of its first failing call, and without an error
      exactly when every call succeeds. */
  lemma FailsWithFirstError(config: Config, a: Answers)
    ensures forall e :: FailsWith(config, a, e) <==> FirstError(config, a) == Some(e)
    ensures (forall e :: !FailsWith(config, a, e))
            <==> config.scrapTarget.scrapeURL != "" && a.makeTempDir && a.newRequest && a.send && a.statusOK
                 && a.createFile && a.copyBody && a.awsConfig && a.openFile && a.putObject && a.removeTempDir
  {
    forall e ensures FailsWith(config, a, e) <==> FirstError(config, a) == Some(e) {
    }
    if FirstError(config, a).Some? {
      assert FailsWith(config, a, FirstError(config, a).value);
    }
  }

  function Bit(b: bool): nat {
    if b then 1 else 0
  }

  function AfterAttempt(config: Config, c: Counters, kind: Kind, a: Answers): Counters {
    c.(generatedCPU := c.generatedCPU + Bit(Collected(config, a) && kind == CPUProfile),
       generatedHeap := c.generatedHeap + Bit(Collected(config, a) && kind == HeapProfile),
       uploaded := c.uploaded + Bit(Stored(config, a)),
       uploadErrors := c.uploadErrors + Bit(Refused(config, a)))
  }

  /** The counters move by what each call achieved, whatever the calls after it. */
  lemma CountersFollowTheCalls(config: Config, c: Counters, kind: Kind, a: Answers)
    ensures var d := AfterAttempt(config, c, kind, a);
            var fetched := config.scrapTarget.scrapeURL != "" && a.makeTempDir && a.newRequest && a.send
                           && a.statusOK && a.createFile && a.copyBody;
            && d.exceededCPU == c.exceededCPU && d.exceededMemory == c.exceededMemory
            && d.generatedCPU - c.generatedCPU == (if fetched && kind == CPUProfile then 1 else 0)
            && d.generatedHeap - c.generatedHeap == (if fetched && kind == HeapProfile then 1 else 0)
            && d.uploaded - c.uploaded == (if fetched && a.awsConfig && a.openFile && a.putObject then 1 else 0)
            && d.uploadErrors - c.uploadErrors
               == (if fetched && a.awsConfig && a.openFile && !a.putObject then 1 else 0)
  {
  }

  // ---- the steps ----

  method UploadToS3(m: SidecarMetrics, a: Answers) returns (result: Option<UploadError>)
    modifies m
    ensures result.None? <==> a.awsConfig && a.openFile && a.putObject
    ensures result == Some(PutObject) <==> a.awsConfig && a.openFile && !a.putObject
    ensures result == Some(AWSConfig) <==> !a.awsConfig
    ensures result != Some(CloseUploaded)
    ensures m.Value() == old(m.Value()).(
              uploaded := old(m.uploaded) + Bit(result.None?),
              uploadErrors := old(m.uploadErrors) + Bit(result == Some(PutObject)))
    ensures m.attempts == old(m.attempts)
  {
    if !a.awsConfig {
      return Some(AWSConfig);
    }
    if !a.openFile {
      return Some(OpenFile);
    }
    var err: Option<UploadError> := None;
    if !a.putObject {
      m.uploadErrors := m.uploadErrors + 1;
      err := Some(PutObject);
      result := err;
    } else {
      m.uploaded := m.uploaded + 1;
      result := None;
    }
    // the deferred close: the result is unnamed, so it can only set a local that no one reads any more
    if !a.closeUploaded && err.None? {
      err := Some(CloseUploaded);
    }
  }

  /** The HTTP part.  Its `err` shadows the caller's: the deferred closes of the body and the file
      can only set this shadow, which no one reads afterwards. */
  method Scrape(config: Config, kind: Kind, m: SidecarMetrics, a: Answers) returns (result: Option<Error>)
    requires a.makeTempDir
    modifies m
    ensures result.None? <==> config.scrapTarget.scrapeURL != ""
                              && a.newRequest && a.send && a.statusOK && a.createFile && a.copyBody
    ensures result.Some? ==> !result.value.RemoveTempDir? && FailsWith(config, a, result.value)
    ensures m.Value() == old(m.Value()).(
              generatedCPU := old(m.generatedCPU) + Bit(result.None? && kind == CPUProfile),
              generatedHeap := old(m.generatedHeap) + Bit(result.None? && kind == HeapProfile))
    ensures m.attempts == old(m.attempts)
  {
    if config.scrapTarget.scrapeURL != "" {
      var shadow: Option<Error> := None;
      if !a.newRequest {
        return Some(NewRequest);
      }
      if !a.send {
        return Some(Send);
      }
      if !a.statusOK {
        result := Some(Status);
      } else if !a.createFile {
        result := Some(CreateFile);
      } else {
        if !a.copyBody {
          result := Some(WriteFile);
        } else {
          if kind == CPUProfile {
            m.generatedCPU := m.generatedCPU + 1;
          } else {
            m.generatedHeap := m.generatedHeap + 1;
          }
          result := None;
        }
        if !a.closeFile && shadow.None? {
          shadow := Some(CloseFile);
        }
      }
      if !a.closeBody && shadow.None? {
        shadow := Some(CloseBody);
      }
    } else {
      return Some(NoScrapeURL);
    }
  }

  /** No error exactly when the profile is stored and its directory removed; the counters depend on
      the stage reached and on nothing else. */
  method CollectAndUploadProfile(config: Config, kind: Kind, m: SidecarMetrics, a: Answers, ghost tick: nat)
    returns (err: Option<Error>)
    modifies m
    ensures err.None? <==> config.scrapTarget.scrapeURL != ""
                           && a.makeTempDir && a.newRequest && a.send && a.statusOK && a.createFile && a.copyBody
                           && a.awsConfig && a.openFile && a.putObject && a.removeTempDir
    ensures err.Some? ==> FailsWith(config, a, err.value)
    ensures m.Value() == AfterAttempt(config, old(m.Value()), kind, a)
    ensures m.attempts == old(m.attempts) + [Attempt(kind, tick)]
  {
    m.attempts := m.attempts + [Attempt(kind, tick)];
    if !a.makeTempDir {
      return Some(TempDir);
    }
    err := Scrape(config, kind, m, a);
    if err.None? {
      var uploadErr := UploadToS3(m, a);
      if uploadErr.Some? {
        err := Some(Upload(uploadErr.value));
      }
    }
    // the deferred removal of the temporary directory, which does reach the named result
    if !a.removeTempDir {
      if err.None? {
        err := Some(RemoveTempDir);
      }
    }
  }

  // ---- the request's credentials ----

  datatype Credentials = Credentials(username: string, password: string)

  /** Basic authentication is set only when both parts are there. */
  function RequestAuth(target: Api.ScrapTarget): Option<Credentials> {
    if target.auth.Some? && target.auth.value.basicAuth.Some? then
      var b := target.auth.value.basicAuth.value;
      if b.username != "" && b.password != "" then Some(Credentials(b.username, b.password)) else None
    else None
  }

  // ---- object keys ----

  const NANOS_PER_SECOND: nat := 1_000_000_000

  function FileName(config: Config, kind: Kind, stampNanos: nat): string {
    KindName(kind) + "-" + config.podName + "-" + config.targetContainer + "-"
    + Stamp(stampNanos / NANOS_PER_SECOND) + ".pprof"
  }

  /** `join` stands for filepath.Join of the prefix, the pod name and a file name. */
  function S3Key(config: Config, join: (string, string, string) -> string, kind: Kind, stampNanos: nat): string {
    if config.s3PathPrefix != "" then join(config.s3PathPrefix, config.podName, FileName(config, kind, stampNanos))
    else FileName(config, kind, stampNanos)
  }

  /** A key says what was profiled and, to the second, when: its stamp reads back as the date and time
      that POSIX counts as that second.  With a prefix set the name goes under prefix and pod. */
  lemma KeyTells(config: Config, join: (string, string, string) -> string, kind: Kind, stampNanos: nat)
    returns (stamp: string, date: Civil)
    ensures var name := (if kind == CPUProfile then "profile" else "heap") + "-" + config.podName + "-"
                        + config.targetContainer + "-" + stamp + ".pprof";
            S3Key(config, join, kind, stampNanos)
            == if config.s3PathPrefix == "" then name else join(config.s3PathPrefix, config.podName, name)
    ensures ReadStamp(stamp) == Some(date)
    ensures date.year >= 1970 && 1 <= date.month <= 12 && SecondsSinceEpoch(date) == stampNanos / 1_000_000_000
  {
    stamp, date := Stamp(stampNanos / NANOS_PER_SECOND), CivilOf(stampNanos / NANOS_PER_SECOND);
    CivilCountsBack(stampNanos / NANOS_PER_SECOND);
    StampReadsBack(stampNanos / NANOS_PER_SECOND);
    hide CivilOf, Stamp, SecondsSinceEpoch, ReadStamp;
  }

  /** Joining keeps this sidecar's file names apart; they hold no separator, as pod and container
      names cannot. */
  ghost predicate JoinKeepsNames(config: Config, join: (string, string, string) -> string) {
    forall k, t, l, u | FileName(config, k, t) != FileName(config, l, u) ::
      join(config.s3PathPrefix, config.podName, FileName(config, k, t))
      != join(config.s3PathPrefix, config.podName, FileName(config, l, u))
  }

  lemma FileNameInjective(config: Config, k: Kind, t: nat, l: Kind, u: nat)
    ensures FileName(config, k, t) == FileName(config, l, u)
            <==> k == l && t / NANOS_PER_SECOND == u / NANOS_PER_SECOND
  {
    var f, g := FileName(config, k, t), FileName(config, l, u);
    if k != l {
      assert f[0] != g[0];
    } else if f == g {
      var head := KindName(k) + "-" + config.podName + "-" + config.targetContainer + "-";
      var s, r := Stamp(t / NANOS_PER_SECOND), Stamp(u / NANOS_PER_SECOND);
      assert f == head + s + ".pprof" && g == head + r + ".pprof";
      assert f[|head|..|f| - 6] == s;
      assert g[|head|..|g| - 6] == r;
      StampInjective(t / NANOS_PER_SECOND, u / NANOS_PER_SECOND);
    }
  }

  /** Two attempts of one sidecar share an object key exactly when they are of the same kind and
      named within the same second of wall-clock time. */
  lemma SameKeyExactly(
    config: Config, join: (string, string, string) -> string, k: Kind, t: nat, l: Kind, u: nat)
    requires JoinKeepsNames(config, join)
    ensures S3Key(config, join, k, t) == S3Key(config, join, l, u)
            <==> k == l && t / NANOS_PER_SECOND == u / NANOS_PER_SECOND
  {
    FileNameInjective(config, k, t, l, u);
  }
}
