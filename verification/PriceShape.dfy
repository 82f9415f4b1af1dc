/** The tiered price never falls, is the list price until it saturates, and never costs more in bulk. */
module PriceShape {
  import opened Saturating
  import opened Pricing

  // ---------- the price never falls ----------

  lemma DiscountedFeeMonotone(base: uint64, a: uint64, b: uint64, i: nat)
    requires a <= b && i < |TIERS|
    ensures DiscountedFee(base, a, i) <= DiscountedFee(base, b, i)
  {
    var w := 100 - TIERS[i].discount;
    assert base * a <= base * b;
    assert SatMul(base, a) * w <= SatMul(base, b) * w;
  }

  lemma {:induction false} FeeUpToTierMonotone(base: uint64, a: uint64, b: uint64, n: nat)
    requires a <= b && n <= |TIERS|
    ensures FeeUpToTier(base, a, n) <= FeeUpToTier(base, b, n)
  {
    if n > 0 {
      FeeUpToTierMonotone(base, a, b, n - 1);
      DiscountedFeeMonotone(base, CreditsInTier(a, n - 1), CreditsInTier(b, n - 1), n - 1);
    }
  }

  /** More credits never cost less, over all `u64` counts and base fees, saturated or not. */
  lemma FeeMonotone(base: uint64, a: uint64, b: uint64)
    requires a <= b
    ensures Fee(base, a) <= Fee(base, b)
  {
    FeeUpToTierMonotone(base, a, b, |TIERS|);
  }

  lemma {:induction false} NoCreditsNoFee(base: uint64, n: nat)
    requires n <= |TIERS|
    ensures FeeUpToTier(base, 0, n) == 0
  {
    if n > 0 {
      NoCreditsNoFee(base, n - 1);
      assert base * 0 == 0;
    }
  }

  // ---------- the loop computes the list price ----------

  /** What tier `i` charges for `count` credits when numbers are unbounded. */
  function TierPrice(base: nat, count: nat, i: nat): nat
    requires i < |TIERS|
  {
    base * count * (100 - TIERS[i].discount) / 100
  }

  function ListPriceUpToTier(base: uint64, credits: uint64, n: nat): nat
    requires n <= |TIERS|
  {
    if n == 0 then 0
    else ListPriceUpToTier(base, credits, n - 1) + TierPrice(base, CreditsInTier(credits, n - 1), n - 1)
  }

  /** The advertised price: each tier's credits at that tier's rate, rounded down tier by tier. */
  function ListPrice(base: uint64, credits: uint64): nat {
    ListPriceUpToTier(base, credits, |TIERS|)
  }

  predicate UnsaturatedUpToTier(base: uint64, credits: uint64, n: nat)
    requires n <= |TIERS|
  {
    n > 0 ==>
      && UnsaturatedUpToTier(base, credits, n - 1)
      && TierPrice(base, CreditsInTier(credits, n - 1), n - 1) <= U64_MAX / 100
  }

  /** No tier asks for more than the largest fee a tier can produce. */
  predicate Unsaturated(base: uint64, credits: uint64) {
    UnsaturatedUpToTier(base, credits, |TIERS|)
  }

  lemma TierSaturation(base: uint64, count: uint64, i: nat)
    requires i < |TIERS|
    ensures DiscountedFee(base, count, i) == Min(TierPrice(base, count, i), U64_MAX / 100)
  {
    var w := 100 - TIERS[i].discount;
    if base * count > U64_MAX {
      assert base * count * w >= (U64_MAX + 1) * w;
      assert SatMul(base, count) * w >= U64_MAX;
    }
  }

  lemma AddTier(soFar: uint64, price: nat, list: nat, exact: bool, n: nat)
    requires n < 5 && soFar <= n * (U64_MAX / 100) && soFar <= list
    requires soFar == list <==> exact
    ensures var total := SatAdd(soFar, Min(price, U64_MAX / 100));
            && total == soFar + Min(price, U64_MAX / 100)
            && total <= (n + 1) * (U64_MAX / 100) && total <= list + price
            && (total == list + price <==> exact && price <= U64_MAX / 100)
  {
  }

  lemma {:induction false} UpToTierSaturation(base: uint64, credits: uint64, n: nat)
    requires n <= |TIERS|
    ensures FeeUpToTier(base, credits, n) <= n * (U64_MAX / 100)
    ensures FeeUpToTier(base, credits, n) <= ListPriceUpToTier(base, credits, n)
    ensures FeeUpToTier(base, credits, n) == ListPriceUpToTier(base, credits, n) <==>
            UnsaturatedUpToTier(base, credits, n)
  {
    if n > 0 {
      UpToTierSaturation(base, credits, n - 1);
      var count := CreditsInTier(credits, n - 1);
      TierSaturation(base, count, n - 1);
      AddTier(FeeUpToTier(base, credits, n - 1), TierPrice(base, count, n - 1),
              ListPriceUpToTier(base, credits, n - 1), UnsaturatedUpToTier(base, credits, n - 1), n - 1);
    }
  }

  /** The fee charged is the list price exactly when no tier saturates, and is below it otherwise. */
  lemma FeeIsListPrice(base: uint64, credits: uint64)
    ensures Fee(base, credits) == ListPrice(base, credits) <==> Unsaturated(base, credits)
    ensures Fee(base, credits) <= ListPrice(base, credits)
  {
    UpToTierSaturation(base, credits, |TIERS|);
  }

  // ---------- bulk never costs more ----------

  /** The price in hundredths of the base fee, before rounding. */
  function Hundredths(credits: uint64, n: nat): nat
    requires n <= |TIERS|
  {
    if n == 0 then 0
    else Hundredths(credits, n - 1) + (100 - TIERS[n - 1].discount) * CreditsInTier(credits, n - 1)
  }

  lemma HundredthsByTier(credits: uint64)
    ensures Hundredths(credits, |TIERS|) ==
            100 * CreditsInTier(credits, 0) + 95 * CreditsInTier(credits, 1) + 90 * CreditsInTier(credits, 2) +
            80 * CreditsInTier(credits, 3) + 70 * CreditsInTier(credits, 4)
  {
    assert Hundredths(credits, 1) == 100 * CreditsInTier(credits, 0);
    assert Hundredths(credits, 2) == Hundredths(credits, 1) + 95 * CreditsInTier(credits, 1);
    assert Hundredths(credits, 3) == Hundredths(credits, 2) + 90 * CreditsInTier(credits, 2);
    assert Hundredths(credits, 4) == Hundredths(credits, 3) + 80 * CreditsInTier(credits, 3);
  }

  lemma Regroup(a: int, b: int, c: int)
    ensures a * b * c == a * (c * b)
  {
  }

  lemma WholeRateProduct(k: int, count: int, v: int)
    ensures (20 * k) * count * (5 * v) == 100 * (k * count * v)
  {
    assert (20 * k) * count == 20 * (k * count);
    Regroup(k * count, 20, 5 * v);
    assert 20 * (k * count) * (5 * v) == (k * count) * (100 * v);
    Regroup(k * count, v, 100);
  }

  lemma TierRounding(base: nat, count: nat, w: nat)
    ensures 100 * (base * count * w / 100) <= base * (w * count) < 100 * (base * count * w / 100) + 100
    ensures base % 20 == 0 && w % 5 == 0 ==> 100 * (base * count * w / 100) == base * (w * count)
  {
    Regroup(base, count, w);
    if base % 20 == 0 && w % 5 == 0 {
      WholeRateProduct(base / 20, count, w / 5);
    }
  }

  lemma RoundingStep(base: nat, list: nat, h: nat, n: nat, count: nat, w: nat)
    requires 100 * list <= base * h <= 100 * list + 100 * n
    requires w % 5 == 0 && (base % 20 == 0 ==> 100 * list == base * h)
    ensures var list', h' := list + base * count * w / 100, h + w * count;
            && 100 * list' <= base * h' <= 100 * list' + 100 * (n + 1)
            && (base % 20 == 0 ==> 100 * list' == base * h')
  {
    TierRounding(base, count, w);
    assert base * (h + w * count) == base * h + base * (w * count);
  }

  /** Rounding loses less than one unit per tier, and nothing when 20 divides the base fee. */
  lemma {:induction false} RoundingBound(base: uint64, credits: uint64, n: nat)
    requires n <= |TIERS|
    ensures 100 * ListPriceUpToTier(base, credits, n) <= base * Hundredths(credits, n)
    ensures base * Hundredths(credits, n) <= 100 * ListPriceUpToTier(base, credits, n) + 100 * n
    ensures base % 20 == 0 ==> 100 * ListPriceUpToTier(base, credits, n) == base * Hundredths(credits, n)
  {
    if n == 0 {
      assert base * 0 == 0;
    } else {
      RoundingBound(base, credits, n - 1);
      RoundingStep(base, ListPriceUpToTier(base, credits, n - 1), Hundredths(credits, n - 1), n - 1,
                   CreditsInTier(credits, n - 1), 100 - TIERS[n - 1].discount);
    }
  }

  lemma InTierMonotone(a: uint64, b: uint64, i: nat)
    requires a <= b && i < |TIERS|
    ensures CreditsInTier(a, i) <= CreditsInTier(b, i)
  {
  }

  lemma AtMostBaseStep(base: nat, x: nat, y: nat, w: nat)
    requires x <= y && w <= 100
    ensures base * y * w / 100 <= base * x * w / 100 + base * (y - x)
  {
    var extra := base * (y - x);
    assert base * y == base * x + extra;
    assert base * y * w == base * x * w + extra * w;
    assert extra * w <= extra * 100;
  }

  /** A credit never costs more than the base fee. */
  lemma {:induction false} AtMostBasePerCredit(base: uint64, a: uint64, b: uint64, n: nat)
    requires a <= b && n <= |TIERS|
    ensures CreditsUpToTier(a, n) <= CreditsUpToTier(b, n)
    ensures ListPriceUpToTier(base, b, n) <=
            ListPriceUpToTier(base, a, n) + base * (CreditsUpToTier(b, n) - CreditsUpToTier(a, n))
  {
    if n == 0 {
      assert base * 0 == 0;
    } else {
      hide CreditsInTier;
      AtMostBasePerCredit(base, a, b, n - 1);
      InTierMonotone(a, b, n - 1);
      var x, y := CreditsInTier(a, n - 1), CreditsInTier(b, n - 1);
      AtMostBaseStep(base, x, y, 100 - TIERS[n - 1].discount);
      ProductOfSum(base, CreditsUpToTier(b, n - 1) - CreditsUpToTier(a, n - 1), y - x);
    }
  }

  lemma ProductOfSum(a: int, b: int, c: int)
    ensures a * (b + c) == a * b + a * c
  {
  }

  lemma MultiplyMonotone(a: nat, b: int, c: int)
    requires b <= c
    ensures a * b <= a * c
  {
  }

  lemma SmallOrdersPayTheBaseFee(base: uint64, credits: uint64)
    requires credits <= 10_000
    ensures ListPrice(base, credits) == base * credits
  {
    assert ListPriceUpToTier(base, credits, 1) == base * credits * 100 / 100 == base * credits;
    assert ListPriceUpToTier(base, credits, 2) == ListPriceUpToTier(base, credits, 1);
    assert ListPriceUpToTier(base, credits, 3) == ListPriceUpToTier(base, credits, 2);
    assert ListPriceUpToTier(base, credits, 4) == ListPriceUpToTier(base, credits, 3);
  }

  /** The unrounded price as its five straight pieces. */
  function Pieces(c: nat): nat {
    if c <= 10_000 then 100 * c
    else if c <= 100_000 then 95 * c + 50_000
    else if c <= 1_000_000 then 90 * c + 550_000
    else if c <= 10_000_000 then 80 * c + 10_550_000
    else 70 * c + 110_550_000
  }

  lemma HundredthsInPieces(credits: uint64)
    ensures Hundredths(credits, |TIERS|) == Pieces(Min(credits, U64_MAX - 1))
  {
    HundredthsByTier(credits);
  }

  /** Two large orders forgo at least 10_000 first-tier discounts of five percent. */
  lemma LargeOrdersForgoDiscount(a: nat, b: nat)
    requires 10_000 < b <= a
    ensures Pieces(a + b) + 50_000 <= Pieces(a) + Pieces(b)
  {
  }

  lemma LargeOrderStep(base: nat, la: nat, lb: nat, l: nat, ha: nat, hb: nat, h: nat)
    requires base > 0 && h + 50_000 <= ha + hb && 100 * l <= base * h
    requires base * ha <= 100 * la + 500 && base * hb <= 100 * lb + 500
    ensures l <= la + lb
  {
    MultiplyMonotone(base, h + 50_000, ha + hb);
    ProductOfSum(base, h, 50_000);
    ProductOfSum(base, ha, hb);
  }

  lemma LargeOrdersSubadditive(base: uint64, a: uint64, b: uint64)
    requires a + b <= U64_MAX && 10_000 < b <= a && base > 0
    ensures ListPrice(base, a + b) <= ListPrice(base, a) + ListPrice(base, b)
  {
    RoundingBound(base, a, |TIERS|);
    RoundingBound(base, b, |TIERS|);
    RoundingBound(base, a + b, |TIERS|);
    HundredthsInPieces(a);
    HundredthsInPieces(b);
    HundredthsInPieces(a + b);
    LargeOrdersForgoDiscount(a, b);
    LargeOrderStep(base, ListPrice(base, a), ListPrice(base, b), ListPrice(base, a + b),
                   Hundredths(a, |TIERS|), Hundredths(b, |TIERS|), Hundredths(a + b, |TIERS|));
  }

  lemma SmallOrderSubadditive(base: uint64, a: uint64, b: uint64)
    requires a + b <= U64_MAX && b <= 10_000
    ensures ListPrice(base, a + b) <= ListPrice(base, a) + ListPrice(base, b)
  {
    AtMostBasePerCredit(base, a, a + b, |TIERS|);
    CountedSoFar(a, |TIERS|);
    CountedSoFar(a + b, |TIERS|);
    SmallOrdersPayTheBaseFee(base, b);
    MultiplyMonotone(base, CreditsUpToTier(a + b, |TIERS|) - CreditsUpToTier(a, |TIERS|), b);
  }

  lemma ListPriceSubadditive(base: uint64, a: uint64, b: uint64)
    requires a + b <= U64_MAX && b <= a
    ensures ListPrice(base, a + b) <= ListPrice(base, a) + ListPrice(base, b)
  {
    if b <= 10_000 {
      SmallOrderSubadditive(base, a, b);
    } else if base > 0 {
      LargeOrdersSubadditive(base, a, b);
    } else {
      RoundingBound(base, a + b, |TIERS|);
      assert 0 * Hundredths(a + b, |TIERS|) == 0;
    }
  }

  /** The most one tier can charge. */
  const CAP: uint64 := U64_MAX / 100

  /** What tier `i` charges for its part of an order. */
  function Capped(base: uint64, credits: uint64, i: nat): (fee: nat)
    requires i < |TIERS|
    ensures fee <= CAP
  {
    Min(TierPrice(base, CreditsInTier(credits, i), i), CAP)
  }

  /** One more tier adds its capped price. */
  lemma NextTier(base: uint64, credits: uint64, n: nat)
    requires n < |TIERS|
    ensures FeeUpToTier(base, credits, n + 1) == FeeUpToTier(base, credits, n) + Capped(base, credits, n)
  {
    hide TierPrice, CreditsInTier;
    UpToTierSaturation(base, credits, n);
    TierSaturation(base, CreditsInTier(credits, n), n);
  }

  /** Caps never let the fee grow faster than the list price. */
  lemma {:induction false} FeeGrowsNoFaster(base: uint64, a: uint64, b: uint64, n: nat)
    requires a <= b && n <= |TIERS|
    ensures FeeUpToTier(base, b, n) - FeeUpToTier(base, a, n) <=
            ListPriceUpToTier(base, b, n) - ListPriceUpToTier(base, a, n)
  {
    hide FeeUpToTier, Capped, TierPrice, CreditsInTier;
    if n == 0 {
      NoTiers(base, a, b);
    } else {
      FeeGrowsNoFaster(base, a, b, n - 1);
      NextTier(base, a, n - 1);
      NextTier(base, b, n - 1);
      TierGrowsNoFaster(base, a, b, n - 1);
    }
  }

  lemma TierGrowsNoFaster(base: uint64, a: uint64, b: uint64, i: nat)
    requires a <= b && i < |TIERS|
    ensures Capped(base, b, i) - Capped(base, a, i) <=
            TierPrice(base, CreditsInTier(b, i), i) - TierPrice(base, CreditsInTier(a, i), i)
  {
    hide TierPrice, CreditsInTier;
    InTierMonotone(a, b, i);
    TierPriceMonotone(base, CreditsInTier(a, i), CreditsInTier(b, i), i);
  }

  /** The order asks tier `i` for more than it can charge. */
  predicate Saturates(base: uint64, credits: uint64, i: nat)
    requires i < |TIERS|
  {
    TierPrice(base, CreditsInTier(credits, i), i) > CAP
  }

  /** An order that saturates does so in some tier. */
  lemma {:induction false} SaturatedTier(base: uint64, credits: uint64, n: nat) returns (j: nat)
    requires n <= |TIERS| && !UnsaturatedUpToTier(base, credits, n)
    ensures j < n && Saturates(base, credits, j)
  {
    j := n - 1;
    if !UnsaturatedUpToTier(base, credits, n - 1) { j := SaturatedTier(base, credits, n - 1); }
  }

  /** It then costs at least what one tier can charge. */
  lemma {:induction false} SaturatedCostsCap(base: uint64, credits: uint64, j: nat, n: nat)
    requires j < n <= |TIERS| && Saturates(base, credits, j)
    ensures FeeUpToTier(base, credits, n) >= CAP
  {
    hide TierPrice, CreditsInTier, FeeUpToTier;
    NextTier(base, credits, n - 1);
    if j < n - 1 { SaturatedCostsCap(base, credits, j, n - 1); }
  }

  /**
   * If the smaller of two orders saturates tier `j` and both together go beyond tier `i`, the larger one alone
   * gets all that tier `i` can charge from the two.
   */
  lemma LargerFillsTier(base: uint64, a: uint64, b: uint64, j: nat, i: nat)
    requires b <= a && a + b <= U64_MAX && j < |TIERS| && i + 1 < |TIERS| && a + b > TierEnd(i)
    requires Saturates(base, b, j)
    ensures Capped(base, a + b, i) == Capped(base, a, i)
  {
    hide TierPrice;
    if i < j {
      ReachedTierIsFull(base, a, b, j, i);
    } else {
      InTierMonotone(a, a + b, i);
      TierPriceMonotone(base, CreditsInTier(a, i), CreditsInTier(a + b, i), i);
      if i == j {
        InTierMonotone(b, a, i);
        TierPriceMonotone(base, CreditsInTier(b, i), CreditsInTier(a, i), i);
      } else {
        MuchLarger(base, a, b, j, i);
      }
    }
  }

  lemma ReachedTierIsFull(base: uint64, a: uint64, b: uint64, j: nat, i: nat)
    requires b <= a && a + b <= U64_MAX && i < j < |TIERS| && Saturates(base, b, j)
    ensures CreditsInTier(a + b, i) == CreditsInTier(a, i)
  {
    var w := 100 - TIERS[j].discount;
    assert base * 0 * w == 0;
    assert b >= TIERS[j].start;
  }

  /** A tier is ten times the size of the one before; more than four tenths of it cost more than any earlier tier. */
  lemma MuchLarger(base: uint64, a: uint64, b: uint64, j: nat, i: nat)
    requires b <= a && j < i && i + 1 < |TIERS| && a + b > TierEnd(i)
    ensures TierPrice(base, CreditsInTier(b, j), j) <= TierPrice(base, CreditsInTier(a, i), i)
  {
    hide TierPrice;
    var x, y := CreditsInTier(b, j), CreditsInTier(a, i);
    assert 2 * x <= y;
    CheaperTier(base, x, y, j, i);
  }

  lemma CheaperTier(base: nat, x: nat, y: nat, j: nat, i: nat)
    requires 2 * x <= y && j < |TIERS| && i < |TIERS|
    ensures TierPrice(base, x, j) <= TierPrice(base, y, i)
  {
    var v, w := 100 - TIERS[j].discount, 100 - TIERS[i].discount;
    assert v <= 100 && 50 <= w;
    MultiplyMonotone(base, x + x, y);
    ProductOfSum(base, x, x);
    HalfTheRate(base * x, base * y, v, w);
  }

  lemma HalfTheRate(p: nat, q: nat, v: nat, w: nat)
    requires p + p <= q && v <= 100 && 50 <= w
    ensures p * v / 100 <= q * w / 100
  {
    MultiplyMonotone(p, v, 100);
    MultiplyMonotone(q, 50, w);
  }

  /** One cap once the last tier that `credits` reach is among the first `n`. */
  function Slack(credits: uint64, n: nat): nat
    requires n <= |TIERS|
  {
    if n == 0 || credits > TierEnd(n - 1) then 0 else CAP
  }

  /** Below the last tier reached by both orders together, the larger one alone already pays all that both pay. */
  lemma OneTierMore(base: uint64, a: uint64, b: uint64, j: nat, i: nat)
    requires b <= a && a + b <= U64_MAX && j < |TIERS| && i < |TIERS| && (i + 1 < |TIERS| || a + b <= TierEnd(i))
    requires Saturates(base, b, j)
    ensures Capped(base, a + b, i) + Slack(a + b, i) <= Capped(base, a, i) + Slack(a + b, i + 1)
  {
    hide Saturates, Capped;
    EndToEnd(i);
    if a + b > TierEnd(i) {
      LargerFillsTier(base, a, b, j, i);
    } else if a + b < TIERS[i].start {
      NotReached(base, a, a + b, i);
    }
  }

  lemma {:induction false} OneCapAtMost(base: uint64, a: uint64, b: uint64, j: nat, n: nat)
    requires b <= a && a + b <= U64_MAX && j < |TIERS| && n < |TIERS|
    requires Saturates(base, b, j)
    ensures FeeUpToTier(base, a + b, n) <= FeeUpToTier(base, a, n) + Slack(a + b, n)
  {
    hide Saturates, Capped, FeeUpToTier, Slack;
    if n == 0 {
      NoTiers(base, a, a + b);
    } else {
      OneCapAtMost(base, a, b, j, n - 1);
      NextTier(base, a, n - 1);
      NextTier(base, a + b, n - 1);
      OneTierMore(base, a, b, j, n - 1);
    }
  }

  lemma NoTiers(base: uint64, a: uint64, b: uint64)
    ensures FeeUpToTier(base, a, 0) == FeeUpToTier(base, b, 0) == Slack(b, 0) == 0
  {
  }

  /** A tier starts where the one before ends. */
  lemma EndToEnd(i: nat)
    requires i < |TIERS|
    ensures TIERS[i].start <= TierEnd(i) && TIERS[i].start == if i == 0 then 1 else TierEnd(i - 1) + 1
  {
  }

  lemma NotReached(base: uint64, a: uint64, b: uint64, i: nat)
    requires a <= b && i < |TIERS| && b < TIERS[i].start
    ensures Capped(base, a, i) == Capped(base, b, i)
  {
  }

  lemma SaturatedSubadditive(base: uint64, a: uint64, b: uint64)
    requires b <= a && a + b <= U64_MAX && !Unsaturated(base, b)
    ensures Fee(base, a + b) <= Fee(base, a) + Fee(base, b)
  {
    hide Saturates, Capped, FeeUpToTier, UnsaturatedUpToTier;
    var last := |TIERS| - 1;
    EndToEnd(last);
    var j := SaturatedTier(base, b, |TIERS|);
    SaturatedCostsCap(base, b, j, |TIERS|);
    OneCapAtMost(base, a, b, j, last);
    NextTier(base, a, last);
    NextTier(base, a + b, last);
    if a + b < TIERS[last].start { NotReached(base, a, a + b, last); }
  }

  /** Splitting an order never makes it cheaper, for every base fee and all credit counts, saturated or not. */
  lemma FeeSubadditive(base: uint64, a: uint64, b: uint64)
    requires a + b <= U64_MAX
    ensures Fee(base, a + b) <= Fee(base, a) + Fee(base, b)
    decreases b
  {
    hide FeeUpToTier, ListPriceUpToTier, UnsaturatedUpToTier;
    if a < b {
      FeeSubadditive(base, b, a);
    } else if Unsaturated(base, b) {
      FeeGrowsNoFaster(base, a, a + b, |TIERS|);
      ListPriceSubadditive(base, a, b);
      FeeIsListPrice(base, b);
    } else {
      SaturatedSubadditive(base, a, b);
    }
  }

  lemma TierPriceMonotone(base: nat, x: nat, y: nat, i: nat)
    requires x <= y && i < |TIERS|
    ensures TierPrice(base, x, i) <= TierPrice(base, y, i)
  {
    var w := 100 - TIERS[i].discount;
    MultiplyMonotone(base, x, y);
    MultiplyMonotone(w, base * x, base * y);
  }

  lemma {:induction false} UnsaturatedDownward(base: uint64, a: uint64, b: uint64, n: nat)
    requires a <= b && n <= |TIERS| && UnsaturatedUpToTier(base, b, n)
    ensures UnsaturatedUpToTier(base, a, n)
  {
    if n > 0 {
      UnsaturatedDownward(base, a, b, n - 1);
      TierPriceMonotone(base, CreditsInTier(a, n - 1), CreditsInTier(b, n - 1), n - 1);
    }
  }

  // ---------- marginal prices ----------

  /** What the next credit costs after `credits` of them. */
  function Marginal(base: uint64, credits: uint64): int
    requires credits < U64_MAX
  {
    Fee(base, credits + 1) - Fee(base, credits)
  }

  ghost predicate MarginalsNeverRise(base: uint64) {
    forall c: uint64 :: c + 2 <= U64_MAX && Unsaturated(base, c + 2) ==> Marginal(base, c + 1) <= Marginal(base, c)
  }

  lemma WholeRate(base: uint64, c: uint64)
    requires base % 20 == 0 && Unsaturated(base, c)
    ensures 100 * Fee(base, c) == base * Pieces(Min(c, U64_MAX - 1))
  {
    FeeIsListPrice(base, c);
    RoundingBound(base, c, |TIERS|);
    HundredthsInPieces(c);
  }

  lemma PiecesBend(x: nat, y: nat, z: nat)
    requires y == x + 1 && (z == y + 1 || z == y)
    ensures Pieces(z) + Pieces(x) <= 2 * Pieces(y)
  {
  }

  lemma PiecesConcave(base: nat, x: nat, y: nat, z: nat)
    requires y == x + 1 && (z == y + 1 || z == y)
    ensures base * Pieces(z) + base * Pieces(x) <= 2 * (base * Pieces(y))
  {
    hide Pieces;
    PiecesBend(x, y, z);
    MultiplyMonotone(base, Pieces(z) + Pieces(x), 2 * Pieces(y));
    ProductOfSum(base, Pieces(z), Pieces(x));
  }

  lemma WholeRatesNeverRise(base: uint64, c: uint64)
    requires base % 20 == 0 && c + 2 <= U64_MAX && Unsaturated(base, c + 2)
    ensures Marginal(base, c + 1) <= Marginal(base, c)
  {
    UnsaturatedDownward(base, c, c + 2, |TIERS|);
    UnsaturatedDownward(base, c + 1, c + 2, |TIERS|);
    WholeRate(base, c);
    WholeRate(base, c + 1);
    WholeRate(base, c + 2);
    PiecesConcave(base, c, c + 1, Min(c + 2, U64_MAX - 1));
  }

  lemma SecondTierPrice(base: uint64, k: nat)
    requires k <= 20 && Unsaturated(base, 10_020)
    ensures Fee(base, 10_000 + k) == base * 10_000 + base * k * 95 / 100
  {
    var c := 10_000 + k;
    UnsaturatedDownward(base, c, 10_020, |TIERS|);
    FeeIsListPrice(base, c);
    assert ListPriceUpToTier(base, c, 1) == base * 10_000 * 100 / 100 == base * 10_000;
    assert ListPriceUpToTier(base, c, 2) == ListPriceUpToTier(base, c, 1) + base * k * 95 / 100;
    assert base * 0 * 90 / 100 == 0;
    assert ListPriceUpToTier(base, c, 3) == ListPriceUpToTier(base, c, 2);
    assert ListPriceUpToTier(base, c, 4) == ListPriceUpToTier(base, c, 3);
  }

  /** If marginals never rise, `k` second-tier credits cost at most `k` times the first of them. */
  lemma {:induction false} SecondTierCap(base: uint64, k: nat)
    requires 1 <= k <= 20 && Unsaturated(base, 10_020) && MarginalsNeverRise(base)
    ensures Marginal(base, 10_000 + k - 1) <= Marginal(base, 10_000)
    ensures Fee(base, 10_000 + k) - Fee(base, 10_000) <= k * Marginal(base, 10_000)
  {
    hide Fee, Unsaturated;
    if k > 1 {
      SecondTierCap(base, k - 1);
      UnsaturatedBelow(base, 10_000 + k, 10_020);
      var c := 10_000 + k - 2;
      assert Marginal(base, c + 1) <= Marginal(base, c);
      assert Fee(base, 10_000 + k) == Fee(base, 10_000 + k - 1) + Marginal(base, 10_000 + k - 1);
    }
  }

  lemma NinetyFivePercent(base: nat, twenty: nat, one: nat)
    requires twenty == base * 20 * 95 / 100 && one == base * 1 * 95 / 100 && twenty <= 20 * one
    ensures base % 20 == 0
  {
    assert twenty == 19 * base;
    assert 100 * one <= 95 * base;
  }

  lemma RisingMarginal(base: uint64)
    requires Unsaturated(base, 10_020) && MarginalsNeverRise(base)
    ensures base % 20 == 0
  {
    hide Fee, Unsaturated, MarginalsNeverRise;
    SecondTierCap(base, 20);
    SecondTierPrice(base, 0);
    SecondTierPrice(base, 1);
    SecondTierPrice(base, 20);
    NinetyFivePercent(base, Fee(base, 10_020) - Fee(base, 10_000), Fee(base, 10_001) - Fee(base, 10_000));
  }

  /** A base fee that saturates within 10_020 credits does so within the first tier. */
  lemma SaturatesInFirstTier(base: uint64, credits: uint64)
    requires !Unsaturated(base, 10_020) && Unsaturated(base, credits)
    ensures credits < 10_000
  {
    if credits >= 10_000 {
      UnsaturatedDownward(base, 10_000, credits, |TIERS|);
      FirstTierUnsaturated(base, 10_000, |TIERS|);
      FirstTierBound(base);
      assert false;
    }
  }

  lemma {:induction false} FirstTierUnsaturated(base: uint64, credits: uint64, n: nat)
    requires 1 <= n <= |TIERS| && UnsaturatedUpToTier(base, credits, n)
    ensures UnsaturatedUpToTier(base, credits, 1)
  {
    if n > 1 { FirstTierUnsaturated(base, credits, n - 1); }
  }

  lemma FirstTierBound(base: uint64)
    requires UnsaturatedUpToTier(base, 10_000, 1)
    ensures Unsaturated(base, 10_020)
  {
    assert base * 10_000 * 100 / 100 == base * 10_000;
    assert base * 20 * 95 / 100 == base * 19;
    assert base * 0 * 90 / 100 == 0 && base * 0 * 80 / 100 == 0 && base * 0 * 70 / 100 == 0;
    assert UnsaturatedUpToTier(base, 10_020, 1);
    assert UnsaturatedUpToTier(base, 10_020, 2);
    assert UnsaturatedUpToTier(base, 10_020, 3);
    assert UnsaturatedUpToTier(base, 10_020, 4);
  }

  /** Within the first tier every credit costs the base fee. */
  lemma FirstTierIsFlat(base: uint64, c: uint64)
    requires c + 2 <= 10_000 && Unsaturated(base, c + 2)
    ensures Marginal(base, c + 1) == Marginal(base, c) == base
  {
    hide Fee, Unsaturated, ListPrice;
    UnsaturatedBelow(base, c, c + 2);
    UnsaturatedBelow(base, c + 1, c + 2);
    FeeIsListPrice(base, c);
    FeeIsListPrice(base, c + 1);
    FeeIsListPrice(base, c + 2);
    SmallOrdersPayTheBaseFee(base, c);
    SmallOrdersPayTheBaseFee(base, c + 1);
    SmallOrdersPayTheBaseFee(base, c + 2);
    ProductOfSum(base, c, 1);
    ProductOfSum(base, c, 2);
  }

  lemma UnsaturatedBelow(base: uint64, a: uint64, b: uint64)
    requires a <= b && Unsaturated(base, b)
    ensures Unsaturated(base, a)
  {
    UnsaturatedDownward(base, a, b, |TIERS|);
  }

  /**
   * Each further credit costs no more than the one before it, for all credit counts that do not saturate, exactly
   * when 20 divides the base fee (the deployed base fee, 2_900_000, does) or is so large that the first tier already
   * saturates.
   */
  lemma MarginalsNeverRiseIff(base: uint64)
    ensures MarginalsNeverRise(base) <==> base % 20 == 0 || !Unsaturated(base, 10_020)
  {
    if !Unsaturated(base, 10_020) {
      forall c: uint64 | c + 2 <= U64_MAX && Unsaturated(base, c + 2)
        ensures Marginal(base, c + 1) <= Marginal(base, c)
      {
        SaturatesInFirstTier(base, c + 2);
        FirstTierIsFlat(base, c);
      }
    }
    if base % 20 == 0 {
      forall c: uint64 | c + 2 <= U64_MAX && Unsaturated(base, c + 2)
        ensures Marginal(base, c + 1) <= Marginal(base, c)
      {
        WholeRatesNeverRise(base, c);
      }
    }
    if MarginalsNeverRise(base) && Unsaturated(base, 10_020) {
      RisingMarginal(base);
    }
  }
}
