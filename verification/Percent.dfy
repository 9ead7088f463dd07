/**
 The percentages the sidecar compares with its thresholds: a float division in exact arithmetic,
 with the infinite and not-a-number results of a zero divisor (sections 7.2 and 7.3 of
 IEEE 754-2008) kept as cases.
 */
module Percent {
  import opened Prelude

  datatype Percent = NaN | Infinite | Finite(value: real)

  /** Go's `percent >= float64(threshold)`: false for NaN, true for positive infinity. */
  predicate AtLeast(p: Percent, threshold: int) {
    match p
    case NaN => false
    case Infinite => true
    case Finite(v) => v >= threshold as real
  }

  /** `(float64(usage) / float64(limit)) * 100` for an unsigned usage and a signed limit. */
  function Ratio(usage: nat, limit: int): Percent {
    if limit != 0 then Finite(usage as real / limit as real * 100.0)
    else if usage == 0 then NaN
    else Infinite
  }

  /** Milli-CPU times one million is nano-CPU, in int64 arithmetic. */
  function CPUPercent(usageNanoCores: nat, limitMilli: int): Percent {
    Ratio(usageNanoCores, Wrap64(limitMilli * 1000000))
  }

  /** THE TRIGGER, for every limit: a positive limit compares 100 times the usage with threshold
      times limit, a zero limit fires on any non-zero usage and never on zero. */
  lemma TriggerExactly(usage: nat, limit: int, threshold: int)
    ensures limit > 0 ==> (AtLeast(Ratio(usage, limit), threshold) <==> 100 * usage >= threshold * limit)
    ensures limit < 0 ==> (AtLeast(Ratio(usage, limit), threshold) <==> 100 * usage <= threshold * limit)
    ensures limit == 0 ==> (AtLeast(Ratio(usage, limit), threshold) <==> usage > 0)
  {
  }

  /** More usage or a smaller positive limit never turns a firing trigger off. */
  lemma TriggerMonotone(usage: nat, more: nat, limit: int, smaller: int, threshold: int)
    requires usage <= more && 0 < smaller <= limit
    requires AtLeast(Ratio(usage, limit), threshold)
    ensures AtLeast(Ratio(more, smaller), threshold)
  {
    TriggerExactly(usage, limit, threshold);
    TriggerExactly(more, smaller, threshold);
    if threshold >= 0 {
      assert threshold * (limit - smaller) >= 0;
    } else {
      assert threshold * smaller <= 0;
    }
  }

  // The largest milli-CPU limit whose nano-CPU value is an int64.
  const MAX_LIMIT_MILLI: int := 9223372036854

  /** The int64 product is exact for a non-negative limit exactly up to that bound. */
  lemma ProductSafeExactly(limitMilli: nat)
    ensures Wrap64(limitMilli * 1000000) == limitMilli * 1000000 <==> limitMilli <= MAX_LIMIT_MILLI
  {
  }

  /** The comparison the trigger is meant to make; any use exceeds a limit of zero. */
  predicate Documented(usageNanoCores: nat, limitMilli: nat, threshold: int) {
    if limitMilli == 0 then usageNanoCores > 0
    else 100 * usageNanoCores >= threshold * (limitMilli * 1000000)
  }

  /** Up to the bound the CPU trigger makes that comparison, at every threshold. */
  lemma CPUTriggerExactly(usageNanoCores: nat, limitMilli: nat, threshold: int)
    requires limitMilli <= MAX_LIMIT_MILLI
    ensures AtLeast(CPUPercent(usageNanoCores, limitMilli), threshold)
            <==> Documented(usageNanoCores, limitMilli, threshold)
  {
    ProductSafeExactly(limitMilli);
    TriggerExactly(usageNanoCores, limitMilli * 1000000, threshold);
  }

  /** Past it some usage and percentage tell the two apart: the wrapped product is negative, zero, or a
      smaller positive limit. */
  lemma CPUTriggerDiffersPastTheBound(limitMilli: nat) returns (usageNanoCores: nat, threshold: nat)
    requires limitMilli > MAX_LIMIT_MILLI
    ensures usageNanoCores <= INT64_MAX && threshold <= 100
    ensures AtLeast(CPUPercent(usageNanoCores, limitMilli), threshold)
            <==> !Documented(usageNanoCores, limitMilli, threshold)
  {
    var wrapped := Wrap64(limitMilli * 1000000);
    if wrapped < 0 {
      usageNanoCores, threshold := 1, 0;
    } else if wrapped == 0 {
      usageNanoCores, threshold := 1, 1;
    } else {
      usageNanoCores, threshold := wrapped, 100;
    }
    TriggerExactly(usageNanoCores, wrapped, threshold);
  }

  /** The CPU trigger is the documented comparison, at every usage and percentage, for exactly the
      limits whose nano-CPU value is an int64. */
  lemma CPUTriggerAsDocumentedExactly(limitMilli: nat)
    ensures (forall usageNanoCores: nat, threshold: nat | usageNanoCores <= INT64_MAX && threshold <= 100 ::
               AtLeast(CPUPercent(usageNanoCores, limitMilli), threshold)
               <==> Documented(usageNanoCores, limitMilli, threshold))
            <==> limitMilli <= MAX_LIMIT_MILLI
  {
    if limitMilli <= MAX_LIMIT_MILLI {
      forall usageNanoCores: nat, threshold: nat
        ensures AtLeast(CPUPercent(usageNanoCores, limitMilli), threshold)
                <==> Documented(usageNanoCores, limitMilli, threshold)
      {
        CPUTriggerExactly(usageNanoCores, limitMilli, threshold);
      }
    } else {
      var usageNanoCores, threshold := CPUTriggerDiffersPastTheBound(limitMilli);
    }
  }

  /** One past the bound the product is negative, so no busy container crosses any threshold. */
  lemma CPUTriggerLostPastTheBound(usageNanoCores: nat, threshold: nat)
    requires usageNanoCores > 0
    ensures !AtLeast(CPUPercent(usageNanoCores, MAX_LIMIT_MILLI + 1), threshold)
  {
  }

  /** Twice as far the product is positive again but tiny, so the trigger fires on almost no usage. */
  lemma CPUTriggerTooEarlyFurtherOn()
    ensures AtLeast(CPUPercent(448384, 18446744073710), 100) && !Documented(448384, 18446744073710, 100)
  {
    TriggerExactly(448384, Wrap64(18446744073710 * 1000000), 100);
  }
}
