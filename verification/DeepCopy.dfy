/**
 The generated deep copies of the Profiler types, on a heap.  A Go struct is a datatype whose pointer
 fields are references, so that assigning it copies pointers and not what they point to; a pointer
 is a `Cell`; a slice is an array.  The value of a structure is an `Api` value, its reach the set
 of everything it points to, directly or not.
 */
module DeepCopy {
  import opened Prelude
  import Api

  class Cell<T> {
    var v: T

    constructor (v: T)
      ensures this.v == v
    {
      this.v := v;
    }
  }

  // ---- the structs ----

  datatype BasicAuth = BasicAuth(username: string, password: string, secretRef: Cell?<Api.SecretRef>)

  datatype Auth = Auth(authType: string, basicAuth: Cell?<BasicAuth>)

  datatype ScrapTarget = ScrapTarget(scrapeURL: string, auth: Cell?<Auth>)

  datatype ProfilerSpec = ProfilerSpec(
    cpuThreshold: Cell?<Api.int32>, memoryThreshold: Cell?<Api.int32>, monitoringPeriod: Api.int32,
    s3Bucket: string, s3Region: string, s3PathPrefix: string, awsCredentialsSecret: string,
    awsAccessKeyId: string, awsSecretAccessKey: string, scrapTarget: Cell?<ScrapTarget>)

  datatype ProfilerStatus = ProfilerStatus(profiles: array?<Api.ProfileRecord>)

  datatype Profiler = Profiler(
    typeMeta: string, name: string, objectMeta: string, spec: ProfilerSpec, status: ProfilerStatus)

  datatype ProfilerList = ProfilerList(typeMeta: string, listMeta: string, items: array?<Profiler>)

  const ZERO_SECRET_REF: Api.SecretRef := Api.SecretRef("", "", "", "")
  const ZERO_BASIC_AUTH: BasicAuth := BasicAuth("", "", null)
  const ZERO_AUTH: Auth := Auth("", null)
  const ZERO_SCRAP_TARGET: ScrapTarget := ScrapTarget("", null)

  // ---- reach ----

  function Pointed(o: object?): set<object> {
    if o == null then {} else {o}
  }

  ghost function BasicAuthReach(b: BasicAuth): set<object> {
    Pointed(b.secretRef)
  }

  ghost function AuthReach(a: Auth): set<object>
    reads a.basicAuth
  {
    Pointed(a.basicAuth) + if a.basicAuth == null then {} else BasicAuthReach(a.basicAuth.v)
  }

  /** The pointers of a scrape target that have to be followed to know its reach. */
  ghost function ScrapInner(t: ScrapTarget): set<object>
    reads t.auth
  {
    Pointed(t.auth) + if t.auth == null then {} else Pointed(t.auth.v.basicAuth)
  }

  ghost function ScrapReach(t: ScrapTarget): set<object>
    reads ScrapInner(t)
  {
    Pointed(t.auth) + if t.auth == null then {} else AuthReach(t.auth.v)
  }

  /** The same for a pointer to a scrape target. */
  ghost function TargetInner(p: Cell?<ScrapTarget>): set<object>
    reads p, if p == null then {} else {p.v.auth}
  {
    Pointed(p) + if p == null then {} else ScrapInner(p.v)
  }

  ghost function TargetReach(p: Cell?<ScrapTarget>): set<object>
    reads TargetInner(p)
  {
    Pointed(p) + if p == null then {} else ScrapReach(p.v)
  }

  ghost function SpecReach(s: ProfilerSpec): set<object>
    reads TargetInner(s.scrapTarget)
  {
    Pointed(s.cpuThreshold) + Pointed(s.memoryThreshold) + TargetReach(s.scrapTarget)
  }

  ghost function ProfilerReach(p: Profiler): set<object>
    reads TargetInner(p.spec.scrapTarget)
  {
    SpecReach(p.spec) + Pointed(p.status.profiles)
  }

  // ---- value ----

  function Int32Value(c: Cell?<Api.int32>): Option<Api.int32>
    reads c
  {
    if c == null then None else Some(c.v)
  }

  ghost function BasicAuthValue(b: BasicAuth): Api.BasicAuth
    reads BasicAuthReach(b)
  {
    Api.BasicAuth(b.username, b.password, if b.secretRef == null then None else Some(b.secretRef.v))
  }

  ghost function AuthValue(a: Auth): Api.Auth
    reads AuthReach(a)
  {
    Api.Auth(a.authType, if a.basicAuth == null then None else Some(BasicAuthValue(a.basicAuth.v)))
  }

  ghost function ScrapValue(t: ScrapTarget): Api.ScrapTarget
    reads ScrapReach(t)
  {
    Api.ScrapTarget(t.scrapeURL, if t.auth == null then None else Some(AuthValue(t.auth.v)))
  }

  ghost function TargetValue(p: Cell?<ScrapTarget>): Option<Api.ScrapTarget>
    reads TargetReach(p)
  {
    if p == null then None else Some(ScrapValue(p.v))
  }

  ghost function SpecValue(s: ProfilerSpec): Api.ProfilerSpec
    reads SpecReach(s)
  {
    Api.ProfilerSpec(
      Int32Value(s.cpuThreshold), Int32Value(s.memoryThreshold), s.monitoringPeriod,
      s.s3Bucket, s.s3Region, s.s3PathPrefix, s.awsCredentialsSecret, s.awsAccessKeyId, s.awsSecretAccessKey,
      TargetValue(s.scrapTarget))
  }

  ghost function StatusValue(s: ProfilerStatus): Api.ProfilerStatus
    reads s.profiles
  {
    Api.ProfilerStatus(if s.profiles == null then None else Some(s.profiles[..]))
  }

  ghost function ProfilerValue(p: Profiler): Api.Profiler
    reads ProfilerReach(p)
  {
    Api.Profiler(p.typeMeta, p.name, p.objectMeta, SpecValue(p.spec), StatusValue(p.status))
  }

  // ---- what equal values mean, field by field and pointer by pointer ----

  /** Both nil, or pointing to the same content. */
  predicate SameContent<T(==)>(p: Cell?<T>, q: Cell?<T>)
    reads p, q
  {
    (p == null <==> q == null) && (p != null && q != null ==> p.v == q.v)
  }

  ghost predicate SameBasicAuth(p: BasicAuth, q: BasicAuth)
    reads p.secretRef, q.secretRef
  {
    p.username == q.username && p.password == q.password && SameContent(p.secretRef, q.secretRef)
  }

  ghost predicate SameAuth(p: Auth, q: Auth)
    reads AuthReach(p), AuthReach(q)
  {
    && p.authType == q.authType && (p.basicAuth == null <==> q.basicAuth == null)
    && (p.basicAuth != null && q.basicAuth != null ==> SameBasicAuth(p.basicAuth.v, q.basicAuth.v))
  }

  ghost predicate SameScrapTarget(p: ScrapTarget, q: ScrapTarget)
    reads ScrapReach(p), ScrapReach(q)
  {
    && p.scrapeURL == q.scrapeURL && (p.auth == null <==> q.auth == null)
    && (p.auth != null && q.auth != null ==> SameAuth(p.auth.v, q.auth.v))
  }

  ghost predicate SameSpec(p: ProfilerSpec, q: ProfilerSpec)
    reads SpecReach(p), SpecReach(q)
  {
    && SameContent(p.cpuThreshold, q.cpuThreshold) && SameContent(p.memoryThreshold, q.memoryThreshold)
    && p.monitoringPeriod == q.monitoringPeriod
    && p.s3Bucket == q.s3Bucket && p.s3Region == q.s3Region && p.s3PathPrefix == q.s3PathPrefix
    && p.awsCredentialsSecret == q.awsCredentialsSecret
    && p.awsAccessKeyId == q.awsAccessKeyId && p.awsSecretAccessKey == q.awsSecretAccessKey
    && (p.scrapTarget == null <==> q.scrapTarget == null)
    && (p.scrapTarget != null && q.scrapTarget != null ==> SameScrapTarget(p.scrapTarget.v, q.scrapTarget.v))
  }

  predicate SameRecords(p: array?<Api.ProfileRecord>, q: array?<Api.ProfileRecord>)
    reads p, q
  {
    && (p == null <==> q == null)
    && (p != null && q != null ==> p.Length == q.Length && forall i | 0 <= i < p.Length :: p[i] == q[i])
  }

  lemma EqualSpecsExactly(p: ProfilerSpec, q: ProfilerSpec)
    ensures SpecValue(p) == SpecValue(q) <==> SameSpec(p, q)
  {
  }

  /** Two Profilers have one value exactly when every field agrees, and every pointer is nil in both or
      points to agreeing content in both. */
  lemma EqualValuesExactly(p: Profiler, q: Profiler)
    ensures ProfilerValue(p) == ProfilerValue(q)
            <==> && p.typeMeta == q.typeMeta && p.name == q.name && p.objectMeta == q.objectMeta
                 && SameSpec(p.spec, q.spec) && SameRecords(p.status.profiles, q.status.profiles)
  {
    EqualSpecsExactly(p.spec, q.spec);
    hide SpecValue, SameSpec;
    var x, y := p.status.profiles, q.status.profiles;
    if x != null && y != null {
      assert x[..] == y[..] <==> SameRecords(x, y);
    }
  }

  // ---- no sharing inside one structure ----

  /** A spec whose two thresholds are kept in different places, and so on down: a tree. */
  ghost predicate SpecIsTree(s: ProfilerSpec) {
    s.cpuThreshold != null ==> s.cpuThreshold != s.memoryThreshold
  }

  // ---- the copies ----

  method SecretRefDeepCopyInto(src: Cell<Api.SecretRef>, dst: Cell<Api.SecretRef>)
    modifies dst
    ensures dst.v == old(src.v)
  {
    dst.v := src.v;
  }

  // Called on two different cells, as the generated code always does, the next three copy.  Called on
  // one cell twice they overwrite the pointer before they read through it, so that what it pointed to is
  // replaced by a zero value: the value survives exactly when there was nothing to lose.

  method BasicAuthDeepCopyInto(src: Cell<BasicAuth>, dst: Cell<BasicAuth>)
    modifies dst
    ensures fresh(BasicAuthReach(dst.v))
    ensures src != dst ==> BasicAuthValue(dst.v) == old(BasicAuthValue(src.v))
    ensures src == dst ==>
              (BasicAuthValue(dst.v) == old(BasicAuthValue(src.v))
               <==> old(src.v.secretRef == null || src.v.secretRef.v == Api.SecretRef("", "", "", "")))
    ensures src == dst && old(src.v.secretRef) == null ==> dst.v == old(src.v)
  {
    dst.v := src.v;
    if src.v.secretRef != null {
      var p := new Cell(ZERO_SECRET_REF);
      dst.v := dst.v.(secretRef := p);
      SecretRefDeepCopyInto(src.v.secretRef, p);
    }
  }

  method AuthDeepCopyInto(src: Cell<Auth>, dst: Cell<Auth>)
    modifies dst
    ensures fresh(AuthReach(dst.v))
    ensures src != dst ==> AuthValue(dst.v) == old(AuthValue(src.v))
    ensures src == dst ==>
              (AuthValue(dst.v) == old(AuthValue(src.v))
               <==> old(src.v.basicAuth == null || src.v.basicAuth.v == BasicAuth("", "", null)))
    ensures src == dst && old(src.v.basicAuth) == null ==> dst.v == old(src.v)
  {
    dst.v := src.v;
    if src.v.basicAuth != null {
      var p := new Cell(ZERO_BASIC_AUTH);
      dst.v := dst.v.(basicAuth := p);
      BasicAuthDeepCopyInto(src.v.basicAuth, p);
    }
  }

  method ScrapTargetDeepCopyInto(src: Cell<ScrapTarget>, dst: Cell<ScrapTarget>)
    modifies dst
    ensures fresh(ScrapReach(dst.v))
    ensures src != dst ==> ScrapValue(dst.v) == old(ScrapValue(src.v))
    ensures src == dst ==>
              (ScrapValue(dst.v) == old(ScrapValue(src.v))
               <==> old(src.v.auth == null || src.v.auth.v == Auth("", null)))
  {
    dst.v := src.v;
    if src.v.auth != null {
      var p := new Cell(ZERO_AUTH);
      dst.v := dst.v.(auth := p);
      AuthDeepCopyInto(src.v.auth, p);
    }
  }

  /** `*out = new(T); (*in).DeepCopyInto(*out)` for a threshold and for the scrape target. */
  method CopyInt32(src: Cell?<Api.int32>) returns (dst: Cell?<Api.int32>)
    ensures Int32Value(dst) == old(Int32Value(src)) && fresh(Pointed(dst))
  {
    dst := null;
    if src != null {
      dst := new Cell<Api.int32>(0);
      dst.v := src.v;
    }
  }

  method CopyTarget(src: Cell?<ScrapTarget>) returns (dst: Cell?<ScrapTarget>)
    ensures TargetValue(dst) == old(TargetValue(src)) && fresh(TargetReach(dst))
  {
    dst := null;
    if src != null {
      dst := new Cell(ZERO_SCRAP_TARGET);
      ScrapTargetDeepCopyInto(src, dst);
    }
  }

  /** What is left alone keeps its value and its reach. */
  twostate lemma TargetStays(p: Cell?<ScrapTarget>)
    requires forall o: object | o in old(TargetReach(p)) :: unchanged(o)
    ensures TargetReach(p) == old(TargetReach(p)) && TargetValue(p) == old(TargetValue(p))
  {
  }

  // A struct embedded in another or lying in a slice's slot is written through an interior pointer;
  // here `*out` is the out-parameter, which the caller stores.

  method ProfilerSpecDeepCopyInto(src: ProfilerSpec) returns (dst: ProfilerSpec)
    ensures SpecValue(dst) == old(SpecValue(src))
    ensures fresh(SpecReach(dst)) && SpecIsTree(dst)
  {
    dst := src;
    var cpuThreshold := CopyInt32(src.cpuThreshold);
    dst := dst.(cpuThreshold := cpuThreshold);
    var memoryThreshold := CopyInt32(src.memoryThreshold);
    dst := dst.(memoryThreshold := memoryThreshold);
    TargetStays(src.scrapTarget);
    var scrapTarget := CopyTarget(src.scrapTarget);
    dst := dst.(scrapTarget := scrapTarget);
  }

  method ProfilerStatusDeepCopyInto(src: ProfilerStatus) returns (dst: ProfilerStatus)
    ensures StatusValue(dst) == old(StatusValue(src))
    ensures fresh(Pointed(dst.profiles))
  {
    dst := src;
    if src.profiles != null {
      var out := new Api.ProfileRecord[src.profiles.Length];
      dst := dst.(profiles := out);
      var i := 0;
      while i < src.profiles.Length
        invariant 0 <= i <= src.profiles.Length
        invariant out[..i] == src.profiles[..i]
        modifies out
      {
        out[i] := src.profiles[i];
        i := i + 1;
      }
      assert out[..i] == out[..] && src.profiles[..i] == src.profiles[..];
    }
  }

  /** What is left alone keeps its value and its reach. */
  twostate lemma SpecStays(s: ProfilerSpec)
    requires forall o: object | o in old(SpecReach(s)) :: unchanged(o)
    ensures SpecReach(s) == old(SpecReach(s)) && SpecValue(s) == old(SpecValue(s))
  {
  }

  /** Whatever a structure reaches exists when the structure does. */
  twostate lemma SpecReachIsOld(s: ProfilerSpec)
    ensures forall o | o in old(SpecReach(s)) :: old(allocated(o))
  {
  }

  method ProfilerDeepCopyInto(src: Profiler) returns (dst: Profiler)
    ensures ProfilerValue(dst) == old(ProfilerValue(src))
    ensures fresh(ProfilerReach(dst)) && SpecIsTree(dst.spec)
  {
    hide SpecValue, SpecReach, SpecIsTree;
    dst := src;
    var spec := ProfilerSpecDeepCopyInto(src.spec);
    dst := dst.(spec := spec);
    ghost var value, reach := SpecValue(spec), SpecReach(spec);
    label Spec:
    var status := ProfilerStatusDeepCopyInto(src.status);
    SpecReachIsOld@Spec(spec);
    SpecStays@Spec(spec);
    assert SpecValue(spec) == value && SpecReach(spec) == reach;
    dst := dst.(status := status);
    assert ProfilerReach(dst) == reach + Pointed(status.profiles);
  }

  twostate lemma ProfilerStays(p: Profiler)
    requires forall o: object | o in old(ProfilerReach(p)) :: unchanged(o)
    ensures ProfilerReach(p) == old(ProfilerReach(p)) && ProfilerValue(p) == old(ProfilerValue(p))
  {
    assert old(SpecReach(p.spec)) <= old(ProfilerReach(p));
    SpecStays(p.spec);
  }

  /** A copy with its value and reach, which nothing else can share. */
  method CopyProfiler(src: Profiler) returns (dst: Profiler, ghost value: Api.Profiler, ghost reach: set<object>)
    ensures ProfilerValue(dst) == value == old(ProfilerValue(src)) && ProfilerReach(dst) == reach
    ensures fresh(reach) && SpecIsTree(dst.spec)
  {
    dst := ProfilerDeepCopyInto(src);
    value, reach := ProfilerValue(dst), ProfilerReach(dst);
  }

  twostate lemma ReachIsOld(p: Profiler)
    ensures forall o | o in old(ProfilerReach(p)) :: old(allocated(o))
  {
  }

  /** A nil receiver gives nil; any other gives a new Profiler of the same value that shares nothing
      with it. */
  method ProfilerDeepCopy(src: Cell?<Profiler>) returns (out: Cell?<Profiler>)
    ensures src == null <==> out == null
    ensures out != null ==>
              && fresh(out) && fresh(ProfilerReach(out.v)) && SpecIsTree(out.v.spec)
              && ProfilerValue(out.v) == old(ProfilerValue(src.v))
              && ({src} + ProfilerReach(src.v)) !! ({out} + ProfilerReach(out.v))
  {
    hide ProfilerValue, ProfilerReach, SpecIsTree;
    if src == null {
      return null;
    }
    ReachIsOld(src.v);
    var v, value, reach := CopyProfiler(src.v);
    label Copied:
    out := new Cell(v);
    ProfilerStays@Copied(v);
    ProfilerStays(src.v);
  }

  // Later writes.  `modify` stands for any writes at all to the objects it names.

  /** Whatever is written through the original after the copy, the copy keeps the original's value. */
  method CopyOutlivesWritesToOriginal(src: Cell<Profiler>) returns (out: Cell<Profiler>)
    modifies src, ProfilerReach(src.v)
    ensures ProfilerValue(out.v) == old(ProfilerValue(src.v))
  {
    hide ProfilerValue, ProfilerReach, SpecIsTree;
    ReachIsOld(src.v);
    ghost var reach := ProfilerReach(src.v);
    out := ProfilerDeepCopy(src);
    label Copied:
    modify src, reach;
    ReachIsOld@Copied(out.v);
    ProfilerStays@Copied(out.v);
  }

  /** Whatever is written through the copy, the original keeps its value. */
  method OriginalOutlivesWritesToCopy(src: Cell<Profiler>) returns (out: Cell<Profiler>)
    ensures ProfilerValue(src.v) == old(ProfilerValue(src.v))
  {
    hide ProfilerValue, ProfilerReach, SpecIsTree;
    ReachIsOld(src.v);
    out := ProfilerDeepCopy(src);
    ghost var reach := ProfilerReach(out.v);
    modify out, reach;
    ProfilerStays(src.v);
  }

  // ---- lists ----

  ghost predicate PairwiseDisjoint(sets: seq<set<object>>) {
    forall i, j | 0 <= i < j < |sets| :: sets[i] !! sets[j]
  }

  /** One step of the slice loop: slot `i` is filled, the slots before it keep what they hold. */
  method CopySlot(src: array<Profiler>, out: array<Profiler>, i: nat,
                  ghost values: seq<Api.Profiler>, ghost reaches: seq<set<object>>)
    returns (ghost value: Api.Profiler, ghost reach: set<object>)
    requires src != out && |values| == |reaches| == i < src.Length == out.Length
    requires forall k | 0 <= k < i ::
               ProfilerValue(out[k]) == values[k] && ProfilerReach(out[k]) == reaches[k] && out !in reaches[k]
    modifies out
    ensures forall k | 0 <= k < i ::
               out[k] == old(out[k]) && ProfilerValue(out[k]) == values[k] && ProfilerReach(out[k]) == reaches[k]
    ensures ProfilerValue(out[i]) == value && ProfilerReach(out[i]) == reach && SpecIsTree(out[i].spec)
    ensures value == old(ProfilerValue(src[i])) && fresh(reach)
  {
    hide ProfilerValue, ProfilerReach, SpecIsTree;
    var item;
    item, value, reach := CopyProfiler(src[i]);
    label Copied:
    out[i] := item;
    ProfilerStays@Copied(item);
    forall k | 0 <= k < i ensures ProfilerValue(out[k]) == values[k] && ProfilerReach(out[k]) == reaches[k] {
      ProfilerStays(out[k]);
    }
  }

  /** The copied items have the original values in order; their reaches are new and pairwise disjoint
      even where the original items share pointers. */
  method ItemsDeepCopy(src: array<Profiler>)
    returns (out: array<Profiler>, ghost values: seq<Api.Profiler>, ghost reaches: seq<set<object>>)
    ensures fresh(out) && out.Length == src.Length == |values| == |reaches|
    ensures forall k | 0 <= k < src.Length :: values[k] == old(ProfilerValue(src[k]))
    ensures forall k | 0 <= k < src.Length ::
      ProfilerValue(out[k]) == values[k] && ProfilerReach(out[k]) == reaches[k] && SpecIsTree(out[k].spec)
    ensures forall k | 0 <= k < src.Length :: fresh(reaches[k]) && out !in reaches[k]
    ensures PairwiseDisjoint(reaches)
  {
    hide ProfilerValue, ProfilerReach, SpecIsTree;
    out := new Profiler[src.Length];
    values, reaches := [], [];
    var i := 0;
    while i < src.Length
      invariant 0 <= i <= src.Length && |values| == |reaches| == i
      invariant forall k | 0 <= k < i :: values[k] == old(ProfilerValue(src[k]))
      invariant forall k | 0 <= k < i ::
        ProfilerValue(out[k]) == values[k] && ProfilerReach(out[k]) == reaches[k] && SpecIsTree(out[k].spec)
      invariant forall k | 0 <= k < i :: fresh(reaches[k]) && out !in reaches[k]
      invariant forall k, o | 0 <= k < i && o in reaches[k] :: allocated(o)
      invariant PairwiseDisjoint(reaches)
      modifies out
    {
      ReachIsOld(src[i]);
      ProfilerStays(src[i]);
      var value, reach := CopySlot(src, out, i, values, reaches);
      assert forall k | 0 <= k < i :: reaches[k] !! reach;
      values, reaches := values + [value], reaches + [reach];
      i := i + 1;
    }
  }

  /** A nil list of items stays nil; otherwise the copy holds copies of all items, sharing nothing with
      the original or among themselves. */
  method ProfilerListDeepCopyInto(src: ProfilerList) returns (dst: ProfilerList)
    ensures dst.typeMeta == src.typeMeta && dst.listMeta == src.listMeta
    ensures dst.items == null <==> src.items == null
    ensures dst.items != null ==>
              && fresh(dst.items) && dst.items.Length == src.items.Length
              && (forall k | 0 <= k < src.items.Length ::
                    && ProfilerValue(dst.items[k]) == old(ProfilerValue(src.items[k]))
                    && fresh(ProfilerReach(dst.items[k])) && SpecIsTree(dst.items[k].spec)
                    && dst.items !in ProfilerReach(dst.items[k]))
              && (forall j, k | 0 <= j < k < src.items.Length ::
                    ProfilerReach(dst.items[j]) !! ProfilerReach(dst.items[k]))
  {
    hide ProfilerValue, ProfilerReach;
    dst := src;
    if src.items != null {
      var out, values, reaches := ItemsDeepCopy(src.items);
      dst := dst.(items := out);
    }
  }

  /** The same for the list behind a pointer, nil for nil. */
  method ProfilerListDeepCopy(src: Cell?<ProfilerList>) returns (out: Cell?<ProfilerList>)
    ensures src == null <==> out == null
    ensures out != null ==>
              && fresh(out) && out.v.typeMeta == src.v.typeMeta && out.v.listMeta == src.v.listMeta
              && (out.v.items == null <==> src.v.items == null)
    ensures out != null && out.v.items != null ==>
              && fresh(out.v.items) && out.v.items.Length == src.v.items.Length
              && (forall k | 0 <= k < src.v.items.Length ::
                    && ProfilerValue(out.v.items[k]) == old(ProfilerValue(src.v.items[k]))
                    && fresh(ProfilerReach(out.v.items[k])) && SpecIsTree(out.v.items[k].spec)
                    && out !in ProfilerReach(out.v.items[k]) && out.v.items !in ProfilerReach(out.v.items[k]))
              && (forall j, k | 0 <= j < k < src.v.items.Length ::
                    ProfilerReach(out.v.items[j]) !! ProfilerReach(out.v.items[k]))
  {
    hide ProfilerValue, ProfilerReach, SpecIsTree;
    if src == null {
      return null;
    }
    var v := ProfilerListDeepCopyInto(src.v);
    label Copied:
    out := new Cell(v);
    if v.items != null {
      forall k | 0 <= k < v.items.Length
        ensures ProfilerValue(v.items[k]) == old@Copied(ProfilerValue(v.items[k]))
        ensures ProfilerReach(v.items[k]) == old@Copied(ProfilerReach(v.items[k]))
        ensures out !in ProfilerReach(v.items[k])
      {
        ReachIsOld@Copied(v.items[k]);
        ProfilerStays@Copied(v.items[k]);
      }
    }
  }

  /** Whatever is written through the original list after the copy, the copied items keep their values. */
  method ListCopyOutlivesWritesToOriginal(src: Cell<ProfilerList>) returns (out: Cell<ProfilerList>)
    modifies src, src.v.items,
             set k, o | src.v.items != null && 0 <= k < src.v.items.Length && o in ProfilerReach(src.v.items[k]) :: o
    ensures out.v.typeMeta == old(src.v.typeMeta) && out.v.listMeta == old(src.v.listMeta)
    ensures out.v.items == null <==> old(src.v.items) == null
    ensures out.v.items != null ==>
              && out.v.items.Length == old(src.v.items.Length)
              && forall k | 0 <= k < out.v.items.Length ::
                   ProfilerValue(out.v.items[k]) == old(ProfilerValue(src.v.items[k]))
  {
    hide ProfilerValue, ProfilerReach, SpecIsTree;
    var items := src.v.items;
    ghost var written :=
      set k, o | items != null && 0 <= k < items.Length && o in ProfilerReach(items[k]) :: o;
    forall k | items != null && 0 <= k < items.Length
      ensures forall o | o in ProfilerReach(items[k]) :: old(allocated(o))
    {
      ReachIsOld(items[k]);
    }
    out := ProfilerListDeepCopy(src);
    label Copied:
    modify src, items, written;
    forall k | out.v.items != null && 0 <= k < out.v.items.Length
      ensures ProfilerValue(out.v.items[k]) == old@Copied(ProfilerValue(out.v.items[k]))
    {
      ReachIsOld@Copied(out.v.items[k]);
      ProfilerStays@Copied(out.v.items[k]);
    }
  }

  /** Whatever is written through the copied list, the original items keep their values. */
  method ListOriginalOutlivesWritesToCopy(src: Cell<ProfilerList>) returns (out: Cell<ProfilerList>)
    ensures src.v == old(src.v)
    ensures src.v.items != null ==>
              forall k | 0 <= k < src.v.items.Length ::
                ProfilerValue(src.v.items[k]) == old(ProfilerValue(src.v.items[k]))
  {
    hide ProfilerValue, ProfilerReach, SpecIsTree;
    out := ProfilerListDeepCopy(src);
    var items := out.v.items;
    ghost var written :=
      set k, o | items != null && 0 <= k < items.Length && o in ProfilerReach(items[k]) :: o;
    modify out, items, written;
    forall k | src.v.items != null && 0 <= k < src.v.items.Length
      ensures ProfilerValue(src.v.items[k]) == old(ProfilerValue(src.v.items[k]))
    {
      ReachIsOld(src.v.items[k]);
      ProfilerStays(src.v.items[k]);
    }
  }
}
