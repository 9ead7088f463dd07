/**
 The CPU cooldown of the sidecar's loop as an online selection problem.  A run is a sequence of
 samples, each with the time the loop read and whether CPU usage was at or above the threshold.
 `Greedy` is what the loop does; everything else here says what that achieves over whole runs.
 */
module Cooldown {
  import opened Prelude

  // Five minutes in nanoseconds.
  const COOLDOWN: int := 300_000_000_000

  datatype Sample = Sample(now: int, hot: bool)

  /** The loop's guard: no profile yet, or strictly more than five minutes since the last one. */
  predicate Ready(last: Option<int>, now: int) {
    last.None? || now - last.value > COOLDOWN
  }

  function LastTime(s: seq<Sample>, p: seq<nat>): Option<int>
    requires forall k | 0 <= k < |p| :: p[k] < |s|
  {
    if p == [] then None else Some(s[p[|p| - 1]].now)
  }

  /** The loop's decision at the last sample, after the picks `p`. */
  predicate Takes(s: seq<Sample>, p: seq<nat>)
    requires s != [] && forall k | 0 <= k < |p| :: p[k] < |s|
  {
    s[|s| - 1].hot && Ready(LastTime(s, p), s[|s| - 1].now)
  }

  /** The indices of the samples at which the loop starts a CPU profile, in order. */
  function Greedy(s: seq<Sample>): (p: seq<nat>)
    ensures forall k | 0 <= k < |p| :: p[k] < |s|
  {
    if s == [] then []
    else
      var p := Greedy(s[..|s| - 1]);
      if Takes(s, p) then p + [|s| - 1] else p
  }

  function Chosen(s: seq<Sample>): set<nat> {
    set i | i in Greedy(s)
  }

  ghost predicate Ordered(s: seq<Sample>) {
    forall i, j | 0 <= i < j < |s| :: s[i].now <= s[j].now
  }

  /** `a` picks only samples that are over the threshold. */
  ghost predicate Hot(s: seq<Sample>, a: set<nat>) {
    forall i | i in a :: i < |s| && s[i].hot
  }

  /** Any two picks are more than five minutes apart. */
  ghost predicate Spaced(s: seq<Sample>, a: set<nat>)
    requires Hot(s, a)
  {
    forall i, j | i in a && j in a && i < j :: s[j].now - s[i].now > COOLDOWN
  }

  ghost predicate CoveredAt(s: seq<Sample>, a: set<nat>, k: nat)
    requires Hot(s, a) && k < |s|
  {
    exists p | p in a :: p < k && s[k].now - s[p].now <= COOLDOWN
  }

  /** Every over-threshold sample left out comes at most five minutes after an earlier pick. */
  ghost predicate Covered(s: seq<Sample>, a: set<nat>)
    requires Hot(s, a)
  {
    forall k: nat | k < |s| && s[k].hot && k !in a :: CoveredAt(s, a, k)
  }

  ghost predicate Increasing(p: seq<nat>) {
    forall i, j | 0 <= i < j < |p| :: p[i] < p[j]
  }

  lemma ChosenOfPrefix(s: seq<Sample>)
    requires s != []
    ensures var n := |s| - 1;
            && n !in Chosen(s[..n])
            && Chosen(s) == Chosen(s[..n]) + (if Takes(s, Greedy(s[..n])) then {n} else {})
  {
  }

  /** The picks come in order without repetition, so their number is the size of their set. */
  lemma {:induction false} GreedyIncreasing(s: seq<Sample>)
    ensures Increasing(Greedy(s))
    ensures |Chosen(s)| == |Greedy(s)|
  {
    if s == [] {
      assert Chosen(s) == {};
    } else {
      GreedyIncreasing(s[..|s| - 1]);
      ChosenOfPrefix(s);
    }
  }

  /** The last pick is the latest one: no pick has a later time. */
  lemma LastIsLatest(s: seq<Sample>)
    requires Ordered(s) && Greedy(s) != []
    ensures var p := Greedy(s);
            p[|p| - 1] in Chosen(s) &&
            forall i | i in Chosen(s) :: s[i].now <= s[p[|p| - 1]].now
  {
  }

  lemma {:induction false} PicksAreHot(s: seq<Sample>, i: nat)
    requires i in Chosen(s)
    ensures i < |s| && s[i].hot
  {
    ChosenOfPrefix(s);
    if i >= |s| - 1 {
    } else {
      PicksAreHot(s[..|s| - 1], i);
    }
  }

  /** The guard looks only at the last pick, yet decides the distance to every earlier one. */
  lemma ReadyMeansFarFromAll(s: seq<Sample>)
    requires s != [] && Ordered(s)
    ensures var n := |s| - 1;
            Takes(s, Greedy(s[..n]))
            <==> s[n].hot && forall i | i in Chosen(s[..n]) :: s[n].now - s[i].now > COOLDOWN
  {
    var t := s[..|s| - 1];
    if Greedy(t) != [] {
      LastIsLatest(t);
    }
  }

  /** The loop profiles only over-threshold ticks, more than five minutes apart. */
  lemma {:induction false} GreedyIsSpaced(s: seq<Sample>)
    requires Ordered(s)
    ensures Hot(s, Chosen(s)) && Spaced(s, Chosen(s))
  {
    if s == [] {
    } else {
      GreedyIsSpaced(s[..|s| - 1]);
      ChosenOfPrefix(s);
      ReadyMeansFarFromAll(s);
    }
  }

  /** A cover of all samples but the last, and of the last if it is left out, covers all. */
  lemma CoveredExtends(s: seq<Sample>, b: set<nat>, a: set<nat>)
    requires s != [] && Hot(s[..|s| - 1], b) && Covered(s[..|s| - 1], b)
    requires Hot(s, a) && (a == b || a == b + {|s| - 1})
    requires s[|s| - 1].hot && a == b ==> CoveredAt(s, a, |s| - 1)
    ensures Covered(s, a)
  {
  }

  /** The loop skips an over-threshold tick only when it started a profile at most five minutes
      before it. */
  lemma {:induction false} GreedyIsCovered(s: seq<Sample>)
    requires Ordered(s)
    ensures Hot(s, Chosen(s)) && Covered(s, Chosen(s))
  {
    GreedyIsSpaced(s);
    if s == [] {
    } else {
      var n := |s| - 1;
      var b := Chosen(s[..n]);
      GreedyIsCovered(s[..n]);
      ChosenOfPrefix(s);
      ReadyMeansFarFromAll(s);
      if s[n].hot && !Takes(s, Greedy(s[..n])) {
        var p :| p in b && s[n].now - s[p].now <= COOLDOWN;
        assert CoveredAt(s, b, n);
      }
      CoveredExtends(s, b, Chosen(s));
    }
  }

  lemma GreedySound(s: seq<Sample>)
    requires Ordered(s)
    ensures Hot(s, Chosen(s)) && Spaced(s, Chosen(s)) && Covered(s, Chosen(s))
  {
    GreedyIsSpaced(s);
    GreedyIsCovered(s);
  }

  /** Some pick of `a` comes no earlier than the last greedy pick. */
  ghost predicate EndsNoEarlier(s: seq<Sample>, a: set<nat>)
    requires Hot(s, a)
  {
    Greedy(s) != [] ==> exists i | i in a :: LastTime(s, Greedy(s)).value <= s[i].now
  }

  /** If the last sample is in `a`, either greedy takes it too, or greedy already had more picks. */
  lemma TakesWhenLevel(s: seq<Sample>, a: set<nat>)
    requires s != [] && Hot(s, a) && Spaced(s, a) && |s| - 1 in a
    requires Hot(s[..|s| - 1], a - {|s| - 1}) && EndsNoEarlier(s[..|s| - 1], a - {|s| - 1})
    ensures Takes(s, Greedy(s[..|s| - 1]))
  {
  }

  lemma LastSampleEndsNoEarlier(s: seq<Sample>, a: set<nat>)
    requires s != [] && Ordered(s) && Hot(s, a) && |s| - 1 in a
    ensures EndsNoEarlier(s, a)
  {
  }

  /** A sample that neither side picks changes nothing about who ends earlier. */
  lemma EndsNoEarlierExtends(s: seq<Sample>, a: set<nat>)
    requires s != [] && Hot(s[..|s| - 1], a) && Hot(s, a) && Greedy(s) == Greedy(s[..|s| - 1])
    requires EndsNoEarlier(s[..|s| - 1], a)
    ensures EndsNoEarlier(s, a)
  {
  }

  lemma AllowedFront(s: seq<Sample>, a: set<nat>)
    requires s != [] && Hot(s, a) && Spaced(s, a)
    ensures var n := |s| - 1;
            && Hot(s[..n], a - {n}) && Spaced(s[..n], a - {n})
            && |a| == |a - {n}| + (if n in a then 1 else 0)
            && (n !in a ==> a - {n} == a)
  {
  }

  lemma GreedyGrowth(s: seq<Sample>)
    requires s != []
    ensures var p := Greedy(s[..|s| - 1]);
            if Takes(s, p) then |Greedy(s)| == |p| + 1 else Greedy(s) == p
  {
  }

  /** Greedy stays ahead: no admissible choice is larger, and one of the same size ends no earlier. */
  lemma {:induction false} StaysAhead(s: seq<Sample>, a: set<nat>)
    requires Ordered(s) && Hot(s, a) && Spaced(s, a)
    ensures |a| <= |Greedy(s)|
    ensures |a| == |Greedy(s)| ==> EndsNoEarlier(s, a)
    decreases |s|
  {
    if s == [] {
      assert a == {};
    } else {
      var n := |s| - 1;
      AllowedFront(s, a);
      StaysAhead(s[..n], a - {n});
      GreedyGrowth(s);
      if n in a {
        if |a - {n}| == |Greedy(s[..n])| {
          TakesWhenLevel(s, a);
        }
        LastSampleEndsNoEarlier(s, a);
      } else if |a| == |Greedy(s)| {
        EndsNoEarlierExtends(s, a);
      }
    }
  }

  /** OPTIMALITY: among all sets of over-threshold ticks with pairwise gaps of more than five
      minutes, the set the loop profiles has the largest size. */
  lemma GreedyIsOptimal(s: seq<Sample>, a: set<nat>)
    requires Ordered(s) && Hot(s, a) && Spaced(s, a)
    ensures |a| <= |Chosen(s)|
  {
    StaysAhead(s, a);
    GreedyIncreasing(s);
  }

  /** Dropping the last sample keeps a set of picks admissible. */
  lemma AdmissiblePrefix(s: seq<Sample>, a: set<nat>)
    requires s != [] && Hot(s, a) && Spaced(s, a) && Covered(s, a)
    ensures var b := a - {|s| - 1};
            var t := s[..|s| - 1];
            Hot(t, b) && Spaced(t, b) && Covered(t, b)
  {
  }

  lemma {:induction false} AdmissibleIsGreedy(s: seq<Sample>, a: set<nat>)
    requires Ordered(s) && Hot(s, a) && Spaced(s, a) && Covered(s, a)
    ensures a == Chosen(s)
  {
    if s == [] {
      assert a == {} == Chosen(s);
    } else {
      var n := |s| - 1;
      AdmissiblePrefix(s, a);
      AdmissibleIsGreedy(s[..n], a - {n});
      ChosenOfPrefix(s);
      ReadyMeansFarFromAll(s);
      if s[n].hot && n !in a {
        assert CoveredAt(s, a, n);
      }
    }
  }

  /** REFERENCE DEFINITION: the profiled set is the one and only set of over-threshold ticks that is
      spaced and leaves out only ticks at most five minutes after a member. */
  lemma GreedyIsUnique(s: seq<Sample>, a: set<nat>)
    requires Ordered(s)
    ensures a == Chosen(s) <==> Hot(s, a) && Spaced(s, a) && Covered(s, a)
  {
    GreedySound(s);
    if Hot(s, a) && Spaced(s, a) && Covered(s, a) {
      AdmissibleIsGreedy(s, a);
    }
  }

  lemma Latest(a: set<nat>) returns (m: nat)
    requires a != {}
    ensures m in a && forall i | i in a :: i <= m
    decreases |a|
  {
    m :| m in a;
    var b := a - {m};
    if b != {} {
      var k := Latest(b);
      assert forall i | i in a :: i == m || i in b;
      m := if k > m then k else m;
    } else {
      assert forall i | i in a :: i == m || i in b;
    }
  }

  /** A spaced set of two or more picks spans strictly more than (size - 1) cooldowns. */
  lemma {:induction false} SpanOfSpaced(s: seq<Sample>, a: set<nat>, lo: int, hi: int)
    requires Ordered(s) && Hot(s, a) && Spaced(s, a)
    requires forall i | i in a :: lo <= s[i].now <= hi
    ensures |a| >= 2 ==> (|a| - 1) * COOLDOWN < hi - lo
    ensures |a| == 1 ==> lo <= hi
    decreases |a|
  {
    if a == {} {
    } else {
      var m := Latest(a);
      var b := a - {m};
      assert |a| == |b| + 1;
      if b == {} {
        assert lo <= s[m].now <= hi;
      } else {
        assert |b| >= 1;
        SpanOfSpaced(s, b, lo, s[m].now - COOLDOWN - 1);
      }
    }
  }

  /** RATE BOUND: k >= 2 CPU profiles started inside a window need more than (k - 1) times five
      minutes of it. */
  lemma RateBound(s: seq<Sample>, a: set<nat>, from: int, until: int)
    requires Ordered(s) && a <= Chosen(s) && |a| >= 2
    requires forall i | i in a :: i < |s| && from <= s[i].now <= until
    ensures (|a| - 1) * COOLDOWN < until - from
  {
    GreedySound(s);
    SpanOfSpaced(s, a, from, until);
  }

  /** After a profile at `p`, the first over-threshold tick past the cooldown starts the next one. */
  lemma NextProfile(s: seq<Sample>, p: nat, k: nat)
    requires Ordered(s) && p in Chosen(s)
    requires p < k < |s| && s[k].hot && s[k].now - s[p].now > COOLDOWN
    requires forall i | p < i < k && s[i].hot :: s[i].now - s[p].now <= COOLDOWN
    ensures k in Chosen(s) && forall i | p < i < k :: i !in Chosen(s)
  {
    GreedySound(s);
    assert CoveredAt(s, Chosen(s), k) || k in Chosen(s);
  }

  /** SUSTAINED OVERLOAD: when every tick is over the threshold and ticks are at most `period` apart,
      each profile is followed by another within five minutes plus one period, unless the run ends
      before its cooldown is over. */
  lemma SustainedOverload(s: seq<Sample>, period: int, p: nat) returns (q: nat)
    requires Ordered(s) && p in Chosen(s) && p < |s|
    requires forall i | 0 <= i < |s| :: s[i].hot
    requires forall i | 0 < i < |s| :: s[i].now - s[i - 1].now <= period
    requires s[|s| - 1].now - s[p].now > COOLDOWN
    ensures p < q < |s| && q in Chosen(s)
    ensures COOLDOWN < s[q].now - s[p].now <= COOLDOWN + period
    ensures forall i | p < i < q :: i !in Chosen(s)
  {
    q := p;
    while s[q].now - s[p].now <= COOLDOWN
      invariant p <= q < |s|
      invariant forall i | p <= i < q :: s[i].now - s[p].now <= COOLDOWN
      decreases |s| - q
    {
      q := q + 1;
    }
    assert s[q].now - s[q - 1].now <= period;
    NextProfile(s, p, q);
  }

  /** MONOTONICITY: if every over-threshold tick of one run is one of the other, at the same times,
      the first run profiles no more often. */
  lemma FewerHotFewerProfiles(s: seq<Sample>, t: seq<Sample>)
    requires Ordered(s) && |s| == |t|
    requires forall i | 0 <= i < |s| :: s[i].now == t[i].now && (s[i].hot ==> t[i].hot)
    ensures |Greedy(s)| <= |Greedy(t)|
  {
    GreedySound(s);
    GreedyIncreasing(s);
    GreedyIsOptimal(t, Chosen(s));
    GreedyIncreasing(t);
  }
}
