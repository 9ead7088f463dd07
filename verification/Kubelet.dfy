/** The stats lookup behind one reading: limits, node fallback, and the search through all pods. */
module Kubelet {
  import opened Prelude
  import opened Percent

  type uint64 = n: int | 0 <= n < 0x1_0000_0000_0000_0000

  datatype Config = Config(namespace: string, podName: string, targetContainer: string)

  datatype ContainerStats = ContainerStats(name: string, usageNanoCores: uint64, workingSetBytes: uint64)

  datatype PodStats = PodStats(name: string, namespace: string, containers: seq<ContainerStats>)

  /** Resource quantities already reduced to milli-CPU and bytes; None when the entry is missing. */
  datatype Resources = Resources(cpuMilli: Option<int>, memoryBytes: Option<int>)

  datatype ContainerSpec = ContainerSpec(name: string, limits: Resources)

  datatype PodSpec = PodSpec(nodeName: string, containers: seq<ContainerSpec>)

  /** What the API server and the kubelet answer: None when the call fails. */
  datatype Answers = Answers(
    pod: Option<PodSpec>, rawStats: bool, stats: Option<seq<PodStats>>, nodeCapacity: Option<Resources>)

  datatype Error =
    | MissingConfig | PodLookup | NoNodeName | StatsRequest | StatsParse | NodeLookup | StatsNotFound

  datatype Usage = Usage(cpu: Percent, memory: Percent)

  datatype Limits = Limits(cpuMilli: int, memoryBytes: int)

  // ---- reference definitions ----

  /** All containers reported for the pod, in report order, across every entry that names it. */
  function Reported(stats: seq<PodStats>, cfg: Config): seq<ContainerStats> {
    if stats == [] then []
    else
      (if stats[0].namespace == cfg.namespace && stats[0].name == cfg.podName
       then stats[0].containers else [])
      + Reported(stats[1..], cfg)
  }

  /** `c` is the first of `cs` with the given name. */
  ghost predicate IsFirstStats(cs: seq<ContainerStats>, name: string, c: ContainerStats) {
    exists i | 0 <= i < |cs| :: cs[i] == c && c.name == name && forall j | 0 <= j < i :: cs[j].name != name
  }

  ghost predicate NoStats(cs: seq<ContainerStats>, name: string) {
    forall i | 0 <= i < |cs| :: cs[i].name != name
  }

  /** The limit of the first container with that name; zero when there is none or it sets none. */
  function OwnLimits(containers: seq<ContainerSpec>, name: string): Limits {
    if containers == [] then Limits(0, 0)
    else if containers[0].name == name then
      Limits(ValueOr(containers[0].limits.cpuMilli, 0), ValueOr(containers[0].limits.memoryBytes, 0))
    else OwnLimits(containers[1..], name)
  }

  /** Each resource falls back on the node's capacity by itself. */
  function EffectiveLimits(own: Limits, capacity: Resources): Limits {
    Limits(if own.cpuMilli != 0 then own.cpuMilli else ValueOr(capacity.cpuMilli, 0),
           if own.memoryBytes != 0 then own.memoryBytes else ValueOr(capacity.memoryBytes, 0))
  }

  predicate NeedsNode(own: Limits) {
    own.cpuMilli == 0 || own.memoryBytes == 0
  }

  lemma {:induction false} ReportedAppend(a: seq<PodStats>, b: seq<PodStats>, cfg: Config)
    ensures Reported(a + b, cfg) == Reported(a, cfg) + Reported(b, cfg)
  {
    if a == [] {
      assert a + b == b;
    } else {
      assert (a + b)[1..] == a[1..] + b;
      ReportedAppend(a[1..], b, cfg);
    }
  }

  lemma FirstStatsOfConcat(a: seq<ContainerStats>, b: seq<ContainerStats>, name: string, c: ContainerStats)
    ensures NoStats(a, name) ==> (IsFirstStats(a + b, name, c) <==> IsFirstStats(b, name, c))
    ensures IsFirstStats(a, name, c) ==> IsFirstStats(a + b, name, c)
  {
    if NoStats(a, name) && IsFirstStats(b, name, c) {
      var i :| 0 <= i < |b| && b[i] == c && c.name == name && forall j | 0 <= j < i :: b[j].name != name;
      assert (a + b)[|a| + i] == c;
    }
    if NoStats(a, name) && IsFirstStats(a + b, name, c) {
      var i :| 0 <= i < |a + b| && (a + b)[i] == c && c.name == name
               && forall j | 0 <= j < i :: (a + b)[j].name != name;
      assert i >= |a|;
      assert b[i - |a|] == c;
      forall j | 0 <= j < i - |a| ensures b[j].name != name { assert (a + b)[|a| + j] == b[j]; }
    }
    if IsFirstStats(a, name, c) {
      var i :| 0 <= i < |a| && a[i] == c && c.name == name && forall j | 0 <= j < i :: a[j].name != name;
      assert (a + b)[i] == c;
    }
  }

  /** Only the first container with the name counts; a limit it does not set is zero. */
  lemma {:induction false} OwnLimitsExactly(containers: seq<ContainerSpec>, name: string, i: nat)
    requires i <= |containers| && forall j | 0 <= j < i :: containers[j].name != name
    requires i < |containers| ==> containers[i].name == name
    ensures OwnLimits(containers, name)
            == if i == |containers| then Limits(0, 0)
               else Limits(ValueOr(containers[i].limits.cpuMilli, 0), ValueOr(containers[i].limits.memoryBytes, 0))
    decreases i
  {
    if i == 0 {
    } else {
      OwnLimitsExactly(containers[1..], name, i - 1);
    }
  }

  // ---- the lookups ----

  method LookupLimits(containers: seq<ContainerSpec>, target: string) returns (limits: Limits)
    ensures limits == OwnLimits(containers, target)
  {
    var cpuLimit, memoryLimit := 0, 0;
    var i := 0;
    while i < |containers|
      invariant 0 <= i <= |containers|
      invariant cpuLimit == 0 && memoryLimit == 0
      invariant OwnLimits(containers, target) == OwnLimits(containers[i..], target)
    {
      var container := containers[i];
      if container.name == target {
        if container.limits.cpuMilli.Some? {
          cpuLimit := container.limits.cpuMilli.value;
        }
        if container.limits.memoryBytes.Some? {
          memoryLimit := container.limits.memoryBytes.value;
        }
        return Limits(cpuLimit, memoryLimit);
      }
      i := i + 1;
    }
    limits := Limits(cpuLimit, memoryLimit);
  }

  lemma NothingReported(cfg: Config)
    ensures Reported([], cfg) == []
  {
  }

  lemma ConcludeSearch(stats: seq<PodStats>, i: nat, cfg: Config, r: Option<ContainerStats>)
    requires i <= |stats|
    requires var cs := Reported(stats[..i], cfg);
             if r.Some? then IsFirstStats(cs, cfg.targetContainer, r.value)
             else i == |stats| && NoStats(cs, cfg.targetContainer)
    ensures var cs := Reported(stats, cfg);
            if r.Some? then IsFirstStats(cs, cfg.targetContainer, r.value) else NoStats(cs, cfg.targetContainer)
  {
    assert stats == stats[..i] + stats[i..];
    ReportedAppend(stats[..i], stats[i..], cfg);
    if r.Some? {
      FirstStatsOfConcat(Reported(stats[..i], cfg), Reported(stats[i..], cfg), cfg.targetContainer, r.value);
    } else {
      assert stats[..i] == stats;
    }
  }

  /** One more pod entry: what the search knew of the first `i` it now knows of the first `i + 1`. */
  lemma ExtendSearch(stats: seq<PodStats>, i: nat, cfg: Config, r: Option<ContainerStats>)
    requires i < |stats|
    requires NoStats(Reported(stats[..i], cfg), cfg.targetContainer)
    requires var p := stats[i];
             if p.namespace == cfg.namespace && p.name == cfg.podName then
               if r.Some? then IsFirstStats(p.containers, cfg.targetContainer, r.value)
               else NoStats(p.containers, cfg.targetContainer)
             else r.None?
    ensures var cs := Reported(stats[..i + 1], cfg);
            if r.Some? then IsFirstStats(cs, cfg.targetContainer, r.value)
            else NoStats(cs, cfg.targetContainer)
  {
    assert stats[..i + 1] == stats[..i] + [stats[i]];
    ReportedAppend(stats[..i], [stats[i]], cfg);
    assert Reported([stats[i]], cfg) == Reported([stats[i]], cfg) + [];
    if r.Some? {
      assert Reported([stats[i]], cfg) == stats[i].containers;
      FirstStatsOfConcat(Reported(stats[..i], cfg), stats[i].containers, cfg.targetContainer, r.value);
    }
  }

  /** The nested search with its `found` flag: the first match of the flattened report, or none. */
  method FindStats(stats: seq<PodStats>, cfg: Config) returns (r: Option<ContainerStats>)
    ensures r.Some? ==> IsFirstStats(Reported(stats, cfg), cfg.targetContainer, r.value)
    ensures r.None? ==> NoStats(Reported(stats, cfg), cfg.targetContainer)
  {
    hide Reported;
    NothingReported(cfg);
    assert stats[..0] == [];
    r := None;
    var found := false;
    var i := 0;
    while i < |stats| && !found
      invariant 0 <= i <= |stats|
      invariant found == r.Some?
      invariant !found ==> NoStats(Reported(stats[..i], cfg), cfg.targetContainer)
      invariant found ==> IsFirstStats(Reported(stats[..i], cfg), cfg.targetContainer, r.value)
    {
      var podStats := stats[i];
      if podStats.namespace == cfg.namespace && podStats.name == cfg.podName {
        var k := 0;
        while k < |podStats.containers| && !found
          invariant 0 <= k <= |podStats.containers|
          invariant found == r.Some?
          invariant !found ==> NoStats(podStats.containers[..k], cfg.targetContainer)
          invariant found ==> IsFirstStats(podStats.containers, cfg.targetContainer, r.value)
        {
          if podStats.containers[k].name == cfg.targetContainer {
            r := Some(podStats.containers[k]);
            found := true;
          }
          k := k + 1;
        }
        assert !found ==> podStats.containers[..k] == podStats.containers;
      }
      ExtendSearch(stats, i, cfg, r);
      i := i + 1;
    }
    ConcludeSearch(stats, i, cfg, r);
  }

  predicate Configured(cfg: Config) {
    cfg.podName != "" && cfg.namespace != "" && cfg.targetContainer != ""
  }

  predicate OnNode(cfg: Config, a: Answers) {
    Configured(cfg) && a.pod.Some? && a.pod.value.nodeName != ""
  }

  predicate HasStats(cfg: Config, a: Answers) {
    OnNode(cfg, a) && a.rawStats && a.stats.Some?
  }

  function Own(cfg: Config, a: Answers): Limits
    requires a.pod.Some?
  {
    OwnLimits(a.pod.value.containers, cfg.targetContainer)
  }

  /** The error each call ends with, checks in the order the code makes them. */
  ghost predicate FailsWith(cfg: Config, a: Answers, e: Error) {
    match e
    case MissingConfig => !Configured(cfg)
    case PodLookup => Configured(cfg) && a.pod.None?
    case NoNodeName => Configured(cfg) && a.pod.Some? && a.pod.value.nodeName == ""
    case StatsRequest => OnNode(cfg, a) && !a.rawStats
    case StatsParse => OnNode(cfg, a) && a.rawStats && a.stats.None?
    case NodeLookup => HasStats(cfg, a) && NeedsNode(Own(cfg, a)) && a.nodeCapacity.None?
    case StatsNotFound => HasStats(cfg, a) && (NeedsNode(Own(cfg, a)) ==> a.nodeCapacity.Some?)
                          && NoStats(Reported(a.stats.value, cfg), cfg.targetContainer)
  }

  /** The limits a reading divides by. */
  function LimitsInForce(cfg: Config, a: Answers): Limits
    requires a.pod.Some? && (NeedsNode(Own(cfg, a)) ==> a.nodeCapacity.Some?)
  {
    if NeedsNode(Own(cfg, a)) then EffectiveLimits(Own(cfg, a), a.nodeCapacity.value) else Own(cfg, a)
  }

  function UsageOf(c: ContainerStats, limits: Limits): Usage {
    Usage(CPUPercent(c.usageNanoCores, limits.cpuMilli), Ratio(c.workingSetBytes, limits.memoryBytes))
  }

  /** A reading is the first matching container's usage over the limits in force. */
  ghost predicate IsReading(cfg: Config, a: Answers, u: Usage) {
    && HasStats(cfg, a)
    && (NeedsNode(Own(cfg, a)) ==> a.nodeCapacity.Some?)
    && exists c: ContainerStats
         | IsFirstStats(Reported(a.stats.value, cfg), cfg.targetContainer, c)
         :: u == UsageOf(c, LimitsInForce(cfg, a))
  }

  method GetKubeletMetrics(cfg: Config, a: Answers) returns (r: Result<Usage, Error>)
    ensures r.Ok? ==> IsReading(cfg, a, r.value)
    ensures r.Err? ==> FailsWith(cfg, a, r.error)
  {
    if cfg.podName == "" || cfg.namespace == "" || cfg.targetContainer == "" {
      return Err(MissingConfig);
    }
    if a.pod.None? {
      return Err(PodLookup);
    }
    var pod := a.pod.value;
    if pod.nodeName == "" {
      return Err(NoNodeName);
    }
    if !a.rawStats {
      return Err(StatsRequest);
    }
    if a.stats.None? {
      return Err(StatsParse);
    }
    var limits := LookupLimits(pod.containers, cfg.targetContainer);
    if limits.cpuMilli == 0 || limits.memoryBytes == 0 {
      if a.nodeCapacity.None? {
        return Err(NodeLookup);
      }
      var capacity := a.nodeCapacity.value;
      if limits.cpuMilli == 0 && capacity.cpuMilli.Some? {
        limits := limits.(cpuMilli := capacity.cpuMilli.value);
      }
      if limits.memoryBytes == 0 && capacity.memoryBytes.Some? {
        limits := limits.(memoryBytes := capacity.memoryBytes.value);
      }
    }
    var stats := FindStats(a.stats.value, cfg);
    if stats.None? {
      return Err(StatsNotFound);
    }
    var cpuPercent := CPUPercent(stats.value.usageNanoCores, limits.cpuMilli);
    var memPercent := Ratio(stats.value.workingSetBytes, limits.memoryBytes);
    return Ok(Usage(cpuPercent, memPercent));
  }

  // ---- a reading in terms of what the cluster answers ----

  /** Container `k` of entry `i` is the first in the report with the configured names. */
  ghost predicate FirstInReport(stats: seq<PodStats>, cfg: Config, i: nat, k: nat) {
    && i < |stats| && stats[i].namespace == cfg.namespace && stats[i].name == cfg.podName
    && k < |stats[i].containers| && stats[i].containers[k].name == cfg.targetContainer
    && (forall m | 0 <= m < k :: stats[i].containers[m].name != cfg.targetContainer)
    && forall j, m | 0 <= j < i && 0 <= m < |stats[j].containers|
                     && stats[j].namespace == cfg.namespace && stats[j].name == cfg.podName ::
         stats[j].containers[m].name != cfg.targetContainer
  }

  lemma FirstStatsSplits(a: seq<ContainerStats>, b: seq<ContainerStats>, name: string, c: ContainerStats)
    requires IsFirstStats(a + b, name, c)
    ensures IsFirstStats(a, name, c) || (NoStats(a, name) && IsFirstStats(b, name, c))
  {
    if NoStats(a, name) {
      FirstStatsOfConcat(a, b, name, c);
    } else {
      var n :| 0 <= n < |a + b| && (a + b)[n] == c && c.name == name
               && forall j | 0 <= j < n :: (a + b)[j].name != name;
      var i :| 0 <= i < |a| && a[i].name == name;
      assert (a + b)[i] == a[i];
      assert a[n] == c && forall j | 0 <= j < n :: a[j] == (a + b)[j];
    }
  }

  /** The first match of the flattened report is the first match of the nested one. */
  lemma {:induction false} FirstOfReported(stats: seq<PodStats>, cfg: Config, c: ContainerStats)
    returns (i: nat, k: nat)
    requires IsFirstStats(Reported(stats, cfg), cfg.targetContainer, c)
    ensures FirstInReport(stats, cfg, i, k) && stats[i].containers[k] == c
    decreases |stats|
  {
    var matching := stats[0].namespace == cfg.namespace && stats[0].name == cfg.podName;
    var here := if matching then stats[0].containers else [];
    FirstStatsSplits(here, Reported(stats[1..], cfg), cfg.targetContainer, c);
    if IsFirstStats(here, cfg.targetContainer, c) {
      i := 0;
      k :| 0 <= k < |here| && here[k] == c && forall j | 0 <= j < k :: here[j].name != cfg.targetContainer;
    } else {
      i, k := FirstOfReported(stats[1..], cfg, c);
      hide Reported;
      i := i + 1;
    }
  }

  /** Place `at` holds the first container of the name; it is past the end when there is none. */
  ghost predicate FirstNamed(containers: seq<ContainerSpec>, name: string, at: nat) {
    && at <= |containers| && (forall j | 0 <= j < at :: containers[j].name != name)
    && (at < |containers| ==> containers[at].name == name)
  }

  /** What the container at `at` sets for itself. */
  function SetThere(containers: seq<ContainerSpec>, at: nat): Resources {
    if at < |containers| then containers[at].limits else Resources(None, None)
  }

  function NodeCapacity(a: Answers): Resources {
    if a.nodeCapacity.Some? then a.nodeCapacity.value else Resources(None, None)
  }

  /** One resource by itself: a limit set to other than zero holds; otherwise the node's entry does, or
      zero when the node has none. */
  predicate InForce(own: Option<int>, node: Option<int>, limit: int) {
    if own.Some? && own.value != 0 then limit == own.value
    else if node.Some? then limit == node.value
    else limit == 0
  }

  /** A READING divides the usage of the first report entry of the pod and container by limits that are
      settled resource by resource, whatever the other resource sets. */
  lemma ReadingExactly(cfg: Config, a: Answers, u: Usage, at: nat)
    returns (c: ContainerStats, limits: Limits, i: nat, k: nat)
    requires IsReading(cfg, a, u)
    requires FirstNamed(a.pod.value.containers, cfg.targetContainer, at)
    ensures FirstInReport(a.stats.value, cfg, i, k) && a.stats.value[i].containers[k] == c
    ensures var own := SetThere(a.pod.value.containers, at);
            && InForce(own.cpuMilli, NodeCapacity(a).cpuMilli, limits.cpuMilli)
            && InForce(own.memoryBytes, NodeCapacity(a).memoryBytes, limits.memoryBytes)
            && (own.cpuMilli in {None, Some(0)} || own.memoryBytes in {None, Some(0)} ==> a.nodeCapacity.Some?)
    ensures u.cpu == CPUPercent(c.usageNanoCores, limits.cpuMilli)
    ensures u.memory == Ratio(c.workingSetBytes, limits.memoryBytes)
  {
    limits := LimitsInForce(cfg, a);
    c :| IsFirstStats(Reported(a.stats.value, cfg), cfg.targetContainer, c) && u == UsageOf(c, limits);
    i, k := FirstOfReported(a.stats.value, cfg, c);
    OwnLimitsExactly(a.pod.value.containers, cfg.targetContainer, at);
  }

  /** The two outcome relations leave no freedom: one reading or one error, never both. */
  lemma OutcomeIsDetermined(cfg: Config, a: Answers)
    ensures forall u, v | IsReading(cfg, a, u) && IsReading(cfg, a, v) :: u == v
    ensures forall d, e | FailsWith(cfg, a, d) && FailsWith(cfg, a, e) :: d == e
    ensures !exists u, e :: IsReading(cfg, a, u) && FailsWith(cfg, a, e)
  {
  }

  ghost predicate NoneInReport(stats: seq<PodStats>, cfg: Config) {
    forall i, k | 0 <= i < |stats| && 0 <= k < |stats[i].containers|
                  && stats[i].namespace == cfg.namespace && stats[i].name == cfg.podName ::
      stats[i].containers[k].name != cfg.targetContainer
  }

  lemma NoStatsOfConcat(a: seq<ContainerStats>, b: seq<ContainerStats>, name: string)
    ensures NoStats(a + b, name) <==> NoStats(a, name) && NoStats(b, name)
  {
    if NoStats(a + b, name) {
      forall i | 0 <= i < |a| ensures a[i].name != name { assert (a + b)[i] == a[i]; }
      forall i | 0 <= i < |b| ensures b[i].name != name { assert (a + b)[|a| + i] == b[i]; }
    }
  }

  lemma NoneInConcat(stats: seq<PodStats>, cfg: Config)
    requires stats != []
    ensures NoneInReport(stats, cfg)
            <==> && NoneInReport(stats[1..], cfg)
                 && (stats[0].namespace == cfg.namespace && stats[0].name == cfg.podName ==>
                       NoStats(stats[0].containers, cfg.targetContainer))
  {
    var rest := stats[1..];
    if NoneInReport(stats, cfg) {
      forall i, k | 0 <= i < |rest| && 0 <= k < |rest[i].containers|
                    && rest[i].namespace == cfg.namespace && rest[i].name == cfg.podName
        ensures rest[i].containers[k].name != cfg.targetContainer
      {
        assert stats[i + 1] == rest[i];
      }
    }
  }

  lemma {:induction false} FirstWithName(cs: seq<ContainerStats>, name: string) returns (c: ContainerStats)
    requires !NoStats(cs, name)
    ensures IsFirstStats(cs, name, c)
    decreases |cs|
  {
    if cs[0].name == name {
      c := cs[0];
    } else {
      assert cs == cs[..1] + cs[1..];
      NoStatsOfConcat(cs[..1], cs[1..], name);
      c := FirstWithName(cs[1..], name);
      FirstStatsOfConcat(cs[..1], cs[1..], name, c);
    }
  }

  lemma {:induction false} NoneReported(stats: seq<PodStats>, cfg: Config)
    ensures NoStats(Reported(stats, cfg), cfg.targetContainer) <==> NoneInReport(stats, cfg)
  {
    if stats == [] {
    } else {
      NoneReported(stats[1..], cfg);
      var matching := stats[0].namespace == cfg.namespace && stats[0].name == cfg.podName;
      var here := if matching then stats[0].containers else [];
      NoStatsOfConcat(here, Reported(stats[1..], cfg), cfg.targetContainer);
      NoneInConcat(stats, cfg);
    }
  }

  /** The checks in the order they are made: the error of the first that fails. */
  ghost function FirstError(cfg: Config, a: Answers, at: nat): Option<Error> {
    if cfg.podName == "" || cfg.namespace == "" || cfg.targetContainer == "" then Some(MissingConfig)
    else if a.pod.None? then Some(PodLookup)
    else if a.pod.value.nodeName == "" then Some(NoNodeName)
    else if !a.rawStats then Some(StatsRequest)
    else if a.stats.None? then Some(StatsParse)
    else
      var own := SetThere(a.pod.value.containers, at);
      if (own.cpuMilli in {None, Some(0)} || own.memoryBytes in {None, Some(0)}) && a.nodeCapacity.None? then
        Some(NodeLookup)
      else if NoneInReport(a.stats.value, cfg) then Some(StatsNotFound)
      else None
  }

  /** A lookup fails with the error of its first failing check, and gives a reading when none fails. */
  lemma FailsWithFirstError(cfg: Config, a: Answers, at: nat)
    requires a.pod.Some? ==> FirstNamed(a.pod.value.containers, cfg.targetContainer, at)
    ensures forall e :: FailsWith(cfg, a, e) <==> FirstError(cfg, a, at) == Some(e)
    ensures FirstError(cfg, a, at).None? <==> exists u :: IsReading(cfg, a, u)
  {
    if a.pod.Some? {
      OwnLimitsExactly(a.pod.value.containers, cfg.targetContainer, at);
    }
    if a.stats.Some? {
      NoneReported(a.stats.value, cfg);
    }
    assert forall e :: FailsWith(cfg, a, e) <==> FirstError(cfg, a, at) == Some(e);
    if FirstError(cfg, a, at).None? {
      var c := FirstWithName(Reported(a.stats.value, cfg), cfg.targetContainer);
      assert IsReading(cfg, a, UsageOf(c, LimitsInForce(cfg, a)));
    }
  }
}
