/** The part of the currency the manager relies on: balances, holds by reason, and moves between them. */
module Currency {
  import opened Outcomes
  import opened Saturating
  import opened Sums

  type AccountId = nat

  datatype HoldReason = Fees | StorageDeposit

  datatype Precision = Exact | BestEffort

  type Amounts = map<AccountId, nat>

  /** Free balances, and balances on hold for each reason. */
  datatype Balances = Balances(free: Amounts, fees: Amounts, deposit: Amounts) {
    function Held(reason: HoldReason): Amounts {
      match reason
      case Fees => fees
      case StorageDeposit => deposit
    }

    function WithHeld(reason: HoldReason, m: Amounts): Balances {
      match reason
      case Fees => this.(fees := m)
      case StorageDeposit => this.(deposit := m)
    }
  }

  /** The amount of an account; an account never seen has nothing. */
  function At(m: Amounts, who: AccountId): nat {
    if who in m then m[who] else 0
  }

  function Same(n: nat): nat {
    n
  }

  ghost function Supply(m: Amounts): nat {
    Sum(m, Same)
  }

  /** Everything there is, free or held. */
  ghost function Issuance(b: Balances): nat {
    Supply(b.free) + Supply(b.fees) + Supply(b.deposit)
  }

  /** Move free balance onto hold. `refused` stands for every other reason the currency may give. */
  function Hold(b: Balances, reason: HoldReason, who: AccountId, amount: nat, refused: bool): (r: Option<Balances>)
    ensures r.Some? <==> !refused && amount <= At(b.free, who)
  {
    if refused || At(b.free, who) < amount then None
    else
      var held := b.Held(reason);
      Some(b.(free := b.free[who := At(b.free, who) - amount]).WithHeld(reason, held[who := At(held, who) + amount]))
  }

  /** Move held balance back to free, all of `amount` or as much of it as there is. */
  function Release(b: Balances, reason: HoldReason, who: AccountId, amount: nat, precision: Precision, refused: bool)
    : (r: Option<Balances>)
    ensures r.Some? <==> !refused && (precision.Exact? ==> amount <= At(b.Held(reason), who))
  {
    var held := b.Held(reason);
    if refused || (precision.Exact? && At(held, who) < amount) then None
    else
      var moved := Min(amount, At(held, who));
      Some(b.(free := b.free[who := At(b.free, who) + moved]).WithHeld(reason, held[who := At(held, who) - moved]))
  }

  /** Move up to `amount` of the fees held for `source` to the free balance of `dest`. */
  function TransferFees(b: Balances, source: AccountId, dest: AccountId, amount: nat): Balances {
    var moved := Min(amount, At(b.fees, source));
    b.(fees := b.fees[source := At(b.fees, source) - moved], free := b.free[dest := At(b.free, dest) + moved])
  }

  /** Move free balance between accounts: what users and other pallets do. */
  function TransferFree(b: Balances, source: AccountId, dest: AccountId, amount: nat): Balances {
    if At(b.free, source) < amount then b
    else
      var taken := b.free[source := At(b.free, source) - amount];
      b.(free := taken[dest := At(taken, dest) + amount])
  }

  // ---------- every move conserves the total issuance ----------

  lemma SupplyPut(m: Amounts, who: AccountId, n: nat)
    ensures Supply(m[who := n]) == Supply(m) + n - At(m, who)
  {
    SumPut(m, Same, who, n);
  }

  lemma HoldConserves(b: Balances, reason: HoldReason, who: AccountId, amount: nat, refused: bool)
    ensures var r := Hold(b, reason, who, amount, refused); r.Some? ==> Issuance(r.value) == Issuance(b)
  {
    if amount <= At(b.free, who) {
      SupplyPut(b.free, who, At(b.free, who) - amount);
      SupplyPut(b.Held(reason), who, At(b.Held(reason), who) + amount);
    }
  }

  lemma ReleaseConserves(b: Balances, reason: HoldReason, who: AccountId, amount: nat, p: Precision, refused: bool)
    ensures var r := Release(b, reason, who, amount, p, refused); r.Some? ==> Issuance(r.value) == Issuance(b)
  {
    var held := b.Held(reason);
    var moved := Min(amount, At(held, who));
    SupplyPut(b.free, who, At(b.free, who) + moved);
    SupplyPut(held, who, At(held, who) - moved);
  }

  lemma TransferFeesConserves(b: Balances, source: AccountId, dest: AccountId, amount: nat)
    ensures Issuance(TransferFees(b, source, dest, amount)) == Issuance(b)
  {
    var moved := Min(amount, At(b.fees, source));
    SupplyPut(b.fees, source, At(b.fees, source) - moved);
    SupplyPut(b.free, dest, At(b.free, dest) + moved);
  }

  lemma TransferFreeConserves(b: Balances, source: AccountId, dest: AccountId, amount: nat)
    ensures Issuance(TransferFree(b, source, dest, amount)) == Issuance(b)
  {
    if amount <= At(b.free, source) {
      var taken := b.free[source := At(b.free, source) - amount];
      SupplyPut(b.free, source, At(b.free, source) - amount);
      SupplyPut(taken, dest, At(taken, dest) + amount);
    }
  }

  // ---------- holding and releasing ----------

  /** The two states differ at most in what `who` has free and on hold for `reason`. */
  ghost predicate OnlyMoves(b: Balances, b': Balances, reason: HoldReason, who: AccountId) {
    && (forall other: AccountId :: other != who ==>
          At(b'.free, other) == At(b.free, other) && At(b'.fees, other) == At(b.fees, other) &&
          At(b'.deposit, other) == At(b.deposit, other))
    && (reason.Fees? ==> b'.deposit == b.deposit) && (reason.StorageDeposit? ==> b'.fees == b.fees)
  }

  /**
   * What is held can be released, exactly, and that undoes the hold for every account; in between only the free
   * balance and that one hold of the account have moved, by the amount.
   */
  lemma HoldReleaseRoundTrip(b: Balances, reason: HoldReason, who: AccountId, amount: nat)
    requires Hold(b, reason, who, amount, false).Some?
    ensures var held := Hold(b, reason, who, amount, false).value;
            var released := Release(held, reason, who, amount, Exact, false);
            && OnlyMoves(b, held, reason, who)
            && At(held.free, who) == At(b.free, who) - amount
            && At(held.Held(reason), who) == At(b.Held(reason), who) + amount
            && released.Some? && OnlyMoves(b, released.value, reason, who)
            && At(released.value.free, who) == At(b.free, who)
            && At(released.value.Held(reason), who) == At(b.Held(reason), who)
  {
  }

  /** A release at best effort gives back what there is, up to the amount; exactly gives back the amount or fails. */
  lemma ReleaseGivesBack(b: Balances, reason: HoldReason, who: AccountId, amount: nat, precision: Precision)
    ensures var r := Release(b, reason, who, amount, precision, false);
            var back := At(b.Held(reason), who);
            && (r.None? <==> precision.Exact? && back < amount)
            && (r.Some? ==>
                  && OnlyMoves(b, r.value, reason, who)
                  && At(r.value.free, who) == At(b.free, who) + (if amount <= back then amount else back)
                  && At(r.value.Held(reason), who) == if amount <= back then back - amount else 0)
  {
  }
}
