/** The tiered volume-discount price of `FeesManagerImpl`. */
module Pricing {
  import opened Saturating

  /** First credit of a tier and the discount, in percent, on credits of that tier. */
  datatype Tier = Tier(start: uint64, discount: uint64)

  const TIERS: seq<Tier> := [
    Tier(1, 0),
    Tier(10_001, 5),
    Tier(100_001, 10),
    Tier(1_000_001, 20),
    Tier(10_000_001, 30)
  ]

  /** Last credit of tier `i`; the last tier stops one short of the largest `u64`. */
  function TierEnd(i: nat): uint64
    requires i < |TIERS|
  {
    (if i + 1 < |TIERS| then TIERS[i + 1].start else U64_MAX) - 1
  }

  /** How many of the credits numbered 1 to `credits` lie in tier `i`. */
  function CreditsInTier(credits: uint64, i: nat): uint64
    requires i < |TIERS|
  {
    if credits < TIERS[i].start then 0 else Min(credits, TierEnd(i)) - TIERS[i].start + 1
  }

  function CreditsUpToTier(credits: uint64, n: nat): nat
    requires n <= |TIERS|
  {
    if n == 0 then 0 else CreditsUpToTier(credits, n - 1) + CreditsInTier(credits, n - 1)
  }

  function DiscountedFee(base: uint64, count: uint64, i: nat): uint64
    requires i < |TIERS|
  {
    SatMul(SatMul(base, count), 100 - TIERS[i].discount) / 100
  }

  function FeeUpToTier(base: uint64, credits: uint64, n: nat): uint64
    requires n <= |TIERS|
  {
    if n == 0 then 0
    else SatAdd(FeeUpToTier(base, credits, n - 1), DiscountedFee(base, CreditsInTier(credits, n - 1), n - 1))
  }

  /** The price of `credits` credits, saturation included. */
  function Fee(base: uint64, credits: uint64): uint64 {
    FeeUpToTier(base, credits, |TIERS|)
  }

  /** `calculate_subscription_fees`: walk the tiers until every credit is priced. */
  method CalculateSubscriptionFees(base: uint64, credits: uint64) returns (totalFee: uint64)
    ensures totalFee == Fee(base, credits)
  {
    totalFee := 0;
    var remaining: uint64 := credits;
    var i := 0;
    while i < |TIERS| && remaining != 0
      invariant i <= |TIERS|
      invariant totalFee == FeeUpToTier(base, credits, i)
      invariant remaining == credits - CreditsUpToTier(credits, i)
    {
      CountedSoFar(credits, i);
      CountedSoFar(credits, i + 1);
      var nextStart: uint64 := if i + 1 < |TIERS| then TIERS[i + 1].start else U64_MAX;
      var reach: uint64 := Min(credits, SatSub(nextStart, 1));
      var beyond: uint64 := reach - TIERS[i].start;
      var creditsInTier: uint64 := Min(beyond + 1, remaining);
      var tierFee: uint64 := SatMul(SatMul(base, creditsInTier), 100 - TIERS[i].discount) / 100;
      totalFee := SatAdd(totalFee, tierFee);
      remaining := SatSub(remaining, creditsInTier);
      i := i + 1;
    }
    UnreachedTiersAreFree(base, credits, i);
  }

  /** The tiers lie end to end: the first `n` of them hold all credits up to the end of the last. */
  lemma {:induction false} CountedSoFar(credits: uint64, n: nat)
    requires n <= |TIERS|
    ensures CreditsUpToTier(credits, n) == if n == 0 then 0 else Min(credits, TierEnd(n - 1))
  {
    if n > 0 {
      CountedSoFar(credits, n - 1);
      assert n > 1 ==> TierEnd(n - 2) + 1 == TIERS[n - 1].start;
    }
  }

  /** Once every credit is counted the remaining tiers add nothing. */
  lemma {:induction false} UnreachedTiersAreFree(base: uint64, credits: uint64, n: nat)
    requires n <= |TIERS|
    requires n == |TIERS| || CreditsUpToTier(credits, n) == credits
    ensures Fee(base, credits) == FeeUpToTier(base, credits, n)
    decreases |TIERS| - n
  {
    if n < |TIERS| {
      CountedSoFar(credits, n);
      CountedSoFar(credits, n + 1);
      UnreachedTiersAreFree(base, credits, n + 1);
    }
  }

  /** The tiers partition the credits, except that the very last `u64` credit belongs to none. */
  lemma TiersPartitionCredits(credits: uint64)
    ensures CreditsUpToTier(credits, |TIERS|) == credits <==> credits < U64_MAX
    ensures CreditsUpToTier(credits, |TIERS|) == Min(credits, U64_MAX - 1)
  {
    CountedSoFar(credits, |TIERS|);
  }
}
