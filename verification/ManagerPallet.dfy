/** The manager pallet as it runs: storage updated in place, call by call. */
module ManagerPallet {
  import opened Outcomes
  import opened Saturating
  import opened Currency
  import opened Subscriptions
  import opened ManagerSpec
  import opened ManagerRuns

  class IdnManager {
    const cfg: Config
    var subscriptions: map<SubId, Subscription>
    var subCounter: uint32
    var balances: Balances
    var journal: Journal

    function Storage(): State
      reads this
    {
      State(subscriptions, subCounter, balances, journal)
    }

    constructor (cfg: Config, free: Amounts)
      ensures this.cfg == cfg && Genesis(Storage()) && balances.free == free
    {
      this.cfg := cfg;
      subscriptions, subCounter, journal := map[], 0, Empty;
      balances := Balances(free, map[], map[]);
    }

    method DepositEvent(e: Entry)
      modifies this`journal
      ensures journal == Then(old(journal), e)
    {
      journal := Then(journal, e);
    }

    // ---------- moves of balance ----------

    method HoldFor(reason: HoldReason, who: AccountId, amount: nat, refused: bool) returns (ok: bool)
      modifies this`balances
      ensures var r := Hold(old(balances), reason, who, amount, refused);
              ok == r.Some? && balances == if ok then r.value else old(balances)
    {
      var r := Hold(balances, reason, who, amount, refused);
      ok := r.Some?;
      if ok { balances := r.value; }
    }

    method ReleaseFrom(reason: HoldReason, who: AccountId, amount: nat, precision: Precision, refused: bool)
      returns (ok: bool)
      modifies this`balances
      ensures var r := Release(old(balances), reason, who, amount, precision, refused);
              ok == r.Some? && balances == if ok then r.value else old(balances)
    {
      var r := Release(balances, reason, who, amount, precision, refused);
      ok := r.Some?;
      if ok { balances := r.value; }
    }

    method ManageFees(who: AccountId, diff: Diff, refused: bool) returns (ok: bool)
      modifies this`balances
      ensures var r := ManageDiffFees(old(balances), who, diff, refused);
              ok == r.Some? && balances == if ok then r.value else old(balances)
    {
      match diff.direction
      case Collect => ok := HoldFor(Fees, who, diff.balance, refused);
      case Refund => ok := ReleaseFrom(Fees, who, diff.balance, Exact, refused);
      case Nothing => ok := true;
    }

    /** Move the price of one credit to the treasury, best effort; anything short is a failure. */
    method CollectFees(sub: Subscription, forgone: nat, limit: Limit) returns (ok: bool)
      modifies this`balances, this`journal
      ensures ok == Collects(cfg, old(Storage()), sub, limit)
      ensures balances == AfterCollection(cfg, old(Storage()), sub, limit)
      ensures journal == Then(old(journal), if ok then FeesCollected(sub.id, CreditFee(cfg, sub))
                                            else FailedCollection(cfg, old(Storage()), sub, limit, forgone))
    {
      var fees := DiffFees(cfg, sub.creditsLeft, SatSub(sub.creditsLeft, 1)).balance;
      var who := sub.details.subscriber;
      if limit == Refused {
        DepositEvent(CollectionFailed(sub.id, who, Other, 0, forgone));
        return false;
      }
      var held := At(balances.fees, who);
      var collected := Min(fees, held);
      if limit.AtMost? { collected := Min(limit.most, collected); }
      balances := TransferFees(balances, who, cfg.treasury, collected);
      if collected < fees {
        DepositEvent(CollectionFailed(sub.id, who, NotEnoughBalance(fees, held), collected, forgone));
        return false;
      }
      DepositEvent(FeesCollected(sub.id, collected));
      return true;
    }

    // ---------- calls ----------

    method CreateSubscription(caller: AccountId, p: CreateParams, generated: SubId, now: uint32,
                              noFees: bool, noDeposit: bool) returns (r: Result<SubId, Error>)
      modifies this
      ensures var spec := Create(cfg, old(Storage()), caller, p, generated, now, noFees, noDeposit);
              && Storage() == Commit(old(Storage()), spec)
              && (spec.Failure? ==> r == Failure(spec.error))
              && (spec.Success? ==> r == Success(NewSubscription(caller, p, generated, now).id))
    {
      if p.credits == 0 { return Failure(InvalidParams); }
      if subCounter >= cfg.maxSubscriptions { return Failure(TooManySubscriptions); }
      var id := if p.subId.Some? then p.subId.value else generated;
      if id in subscriptions { return Failure(SubscriptionAlreadyExists); }
      var sub := Subscription(id, Details(caller, p.encodedSize), p.credits, Active, now, now, p.credits, p.frequency,
                              p.metadata, None);
      var saved := balances;
      var held := HoldFor(Fees, caller, cfg.price(p.credits), noFees);
      if !held { return Failure(CurrencyError); }
      held := HoldFor(StorageDeposit, caller, DepositFor(cfg, sub), noDeposit);
      if !held {
        balances := saved;
        return Failure(CurrencyError);
      }
      subscriptions := subscriptions[id := sub];
      subCounter := subCounter + 1;
      DepositEvent(Created(id, p.credits));
      return Success(id);
    }

    method PauseSubscription(caller: AccountId, id: SubId) returns (r: Result<(), Error>)
      modifies this
      ensures var spec := Pause(old(Storage()), caller, id);
              && Storage() == Commit(old(Storage()), spec)
              && r == if spec.Success? then Success(()) else Failure(spec.error)
    {
      if id !in subscriptions { return Failure(SubscriptionDoesNotExist); }
      var sub := subscriptions[id];
      if sub.details.subscriber != caller { return Failure(NotSubscriber); }
      if sub.state != Active { return Failure(SubscriptionInvalidTransition); }
      subscriptions := subscriptions[id := sub.(state := Paused)];
      DepositEvent(Suspended(id));
      return Success(());
    }

    method ReactivateSubscription(caller: AccountId, id: SubId) returns (r: Result<(), Error>)
      modifies this
      ensures var spec := Reactivate(old(Storage()), caller, id);
              && Storage() == Commit(old(Storage()), spec)
              && r == if spec.Success? then Success(()) else Failure(spec.error)
    {
      if id !in subscriptions { return Failure(SubscriptionDoesNotExist); }
      var sub := subscriptions[id];
      if sub.details.subscriber != caller { return Failure(NotSubscriber); }
      if sub.state != Paused { return Failure(SubscriptionInvalidTransition); }
      subscriptions := subscriptions[id := sub.(state := Active)];
      DepositEvent(Entry.Reactivated(id));
      return Success(());
    }

    method UpdateSubscription(caller: AccountId, id: SubId, p: UpdateParams, now: uint32, refused: bool)
      returns (r: Result<(), Error>)
      modifies this
      ensures var spec := Update(cfg, old(Storage()), caller, id, p, now, refused);
              && Storage() == Commit(old(Storage()), spec)
              && r == if spec.Success? then Success(()) else Failure(spec.error)
    {
      if id !in subscriptions { return Failure(SubscriptionDoesNotExist); }
      var sub := subscriptions[id];
      if sub.details.subscriber != caller { return Failure(NotSubscriber); }
      if sub.state == Finalized { return Failure(SubscriptionNotUpdatable); }
      var before := sub;
      var diff := Diff(0, Nothing);
      if p.credits.Some? {
        diff := DiffFees(cfg, sub.credits, p.credits.value);
        sub := sub.(credits := p.credits.value);
      }
      if p.frequency.Some? { sub := sub.(frequency := p.frequency.value); }
      if p.metadata.Some? { sub := sub.(metadata := p.metadata.value); }
      sub := sub.(updatedAt := now);
      // the copy is taken after the changes, so the two deposits compared are the same
      var oldSub := sub;
      var depositDiff := DepositFor(cfg, sub) - DepositFor(cfg, oldSub);
      assert depositDiff == 0;
      var ok := ManageFees(caller, diff, refused);
      if !ok { return Failure(CurrencyError); }
      subscriptions := subscriptions[id := sub];
      DepositEvent(Entry.Updated(id, caller, cfg.price(before.credits), cfg.price(sub.credits),
                                 DepositFor(cfg, before), DepositFor(cfg, sub)));
      return Success(());
    }

    /** Not rolled back by itself: a refused deposit leaves the fees already released. */
    method TerminateSubscription(sub: Subscription, id: SubId, noFees: bool, noDeposit: bool) returns (ok: bool)
      requires id in subscriptions && subscriptions[id] == sub
      modifies this
      ensures var t := Terminate(cfg, old(Storage()), id, noFees, noDeposit); Storage() == t.state && ok == t.done
    {
      var feesDiff := DiffFees(cfg, sub.creditsLeft, 0);
      var deposit := DepositFor(cfg, sub);
      ok := ManageFees(sub.details.subscriber, feesDiff, noFees);
      if !ok { return; }
      DepositEvent(FeesReleased(id, cfg.price(sub.creditsLeft)));
      ok := ReleaseFrom(StorageDeposit, sub.details.subscriber, deposit, BestEffort, noDeposit);
      if !ok { return; }
      subscriptions := subscriptions - {id};
      subCounter := SatDec(subCounter);
      DepositEvent(Entry.Terminated(id));
    }

    method KillSubscription(caller: AccountId, id: SubId, noFees: bool, noDeposit: bool) returns (r: Result<(), Error>)
      modifies this
      ensures var spec := Kill(cfg, old(Storage()), caller, id, noFees, noDeposit);
              && Storage() == Commit(old(Storage()), spec)
              && r == if spec.Success? then Success(()) else Failure(spec.error)
    {
      if id !in subscriptions { return Failure(SubscriptionDoesNotExist); }
      var sub := subscriptions[id];
      if sub.details.subscriber != caller { return Failure(NotSubscriber); }
      var savedBalances, savedJournal := balances, journal;
      var ok := TerminateSubscription(sub, id, noFees, noDeposit);
      if !ok {
        balances, journal := savedBalances, savedJournal;
        return Failure(CurrencyError);
      }
      return Success(());
    }

    // ---------- pulses and block ends ----------

    method PauseOnError(id: SubId, sub: Subscription)
      modifies this`subscriptions, this`journal
      ensures subscriptions == old(subscriptions)[id := sub.(state := Paused)]
      ensures journal == Then(old(journal), Suspended(id))
    {
      subscriptions := subscriptions[id := sub.(state := Paused)];
      DepositEvent(Suspended(id));
    }

    /** One turn of the distribution loop. */
    method DistributeTo(id: SubId, now: uint32, limit: Limit, unsent: bool)
      requires id in subscriptions
      modifies this
      ensures Storage() == DistributeOne(cfg, old(Storage()), id, now, limit, unsent)
      ensures subscriptions.Keys == old(subscriptions).Keys
    {
      var sub := subscriptions[id];
      if sub.state == Active && (sub.lastDelivered.None? || now >= WrapAdd32(sub.lastDelivered.value, sub.frequency)) {
        var collected := CollectFees(sub, 0, limit);
        if !collected {
          PauseOnError(id, sub);
          return;
        }
        sub := sub.(creditsLeft := SatSub(sub.creditsLeft, 1), lastDelivered := Some(now));
        DepositEvent(SendAttempted(id, now, sub.frequency));
        if unsent {
          PauseOnError(id, sub);
          return;
        }
        DepositEvent(Entry.Distributed(id));
      } else {
        var collected := CollectFees(sub, CreditFee(cfg, sub), limit);
        sub := sub.(creditsLeft := SatSub(sub.creditsLeft, 1));
      }
      if sub.state != Finalized && sub.creditsLeft < 1 {
        sub := sub.(state := Finalized);
      }
      subscriptions := subscriptions[id := sub];
    }

    /** `distribute`: every stored subscription takes its turn, in the order storage yields them. */
    method DistributeAll(order: seq<SubId>, now: uint32, limits: map<SubId, Limit>, unsent: set<SubId>)
      requires Lists(order, subscriptions.Keys)
      modifies this
      ensures Storage() == Distribute(cfg, old(Storage()), order, now, limits, unsent)
    {
      hide DistributeOne;
      assert order[..0] == [];
      for i := 0 to |order|
        invariant Storage() == Distribute(cfg, old(Storage()), order[..i], now, limits, unsent)
        invariant subscriptions.Keys == old(subscriptions).Keys
      {
        assert order[..i + 1][..i] == order[..i];
        DistributeTo(order[i], now, LimitFor(limits, order[i]), order[i] in unsent);
      }
      assert order[..|order|] == order;
    }

    /** `on_finalize`: terminate finalized subscriptions until the block's limit is reached. */
    method OnFinalize(order: seq<SubId>, stuck: set<SubId>)
      requires Lists(order, subscriptions.Keys)
      modifies this
      ensures Storage() == Reap(cfg, old(Storage()), order, stuck).state
    {
      var picked := 0;
      assert order[..0] == [];
      for i := 0 to |order|
        invariant Reaping(Storage(), picked) == Reap(cfg, old(Storage()), order[..i], stuck)
      {
        assert order[..i + 1][..i] == order[..i];
        var id := order[i];
        if id in subscriptions && subscriptions[id].state == Finalized && picked < cfg.maxTerminatable {
          var _ := TerminateSubscription(subscriptions[id], id, id in stuck, id in stuck);
          picked := picked + 1;
        }
      }
      assert order[..|order|] == order;
    }
  }
}
