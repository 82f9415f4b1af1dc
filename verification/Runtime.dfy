/** The deployed configuration: the tiered price and the limits of the runtime. */
module Runtime {
  import opened Saturating
  import opened Currency
  import opened Subscriptions
  import opened ManagerSpec
  import Pricing
  import PriceShape

  const BASE_FEE: uint64 := 2_900_000

  /** The tiered price is a price: nothing costs nothing, and more credits never cost less. */
  lemma TieredIsPrice(base: uint64)
    ensures IsPrice((c: uint64) => Pricing.Fee(base, c))
  {
    var p := (c: uint64) => Pricing.Fee(base, c);
    PriceShape.NoCreditsNoFee(base, |Pricing.TIERS|);
    forall a: uint64, b: uint64 | a <= b ensures p(a) <= p(b) {
      PriceShape.FeeMonotone(base, a, b);
    }
  }

  ghost function TieredPrice(base: uint64): (p: Price)
    ensures forall c: uint64 :: p(c) == Pricing.Fee(base, c)
  {
    TieredIsPrice(base);
    (c: uint64) => Pricing.Fee(base, c)
  }

  ghost function RuntimeConfig(treasury: AccountId): Config {
    Config(TieredPrice(BASE_FEE), 100, 2_000, 200, treasury)
  }

  /** With the tiered price, consuming credits releases or does nothing; it never asks for more. */
  lemma ConsumingNeverCollects(treasury: AccountId, credits: uint64, consumed: uint64)
    ensures var diff := DiffFees(RuntimeConfig(treasury), credits, SatSub(credits, consumed));
            && !diff.direction.Collect?
            && diff.balance == Pricing.Fee(BASE_FEE, credits) - Pricing.Fee(BASE_FEE, SatSub(credits, consumed))
  {
    PriceShape.FeeMonotone(BASE_FEE, SatSub(credits, consumed), credits);
  }
}
