/** No step of the manager creates or destroys balance. */
module Conservation {
  import opened Saturating
  import opened Currency
  import opened Subscriptions
  import opened ManagerSpec
  import opened ManagerRuns

  lemma DiffConserves(b: Balances, who: AccountId, diff: Diff, refused: bool)
    ensures var r := ManageDiffFees(b, who, diff, refused); r.Some? ==> Issuance(r.value) == Issuance(b)
  {
    hide Issuance, Hold, Release;
    HoldConserves(b, Fees, who, diff.balance, refused);
    ReleaseConserves(b, Fees, who, diff.balance, Exact, refused);
  }

  lemma CreateConserves(cfg: Config, s: State, caller: AccountId, p: CreateParams, generated: SubId, now: uint32,
                        noFees: bool, noDeposit: bool)
    ensures var r := Create(cfg, s, caller, p, generated, now, noFees, noDeposit);
            Issuance(Commit(s, r).balances) == Issuance(s.balances)
  {
    hide Issuance, Hold, DepositFor;
    var sub := NewSubscription(caller, p, generated, now);
    HoldConserves(s.balances, Fees, caller, cfg.price(p.credits), noFees);
    var held := Hold(s.balances, Fees, caller, cfg.price(p.credits), noFees);
    if held.Some? {
      HoldConserves(held.value, StorageDeposit, caller, DepositFor(cfg, sub), noDeposit);
    }
  }

  lemma TerminateConserves(cfg: Config, s: State, id: SubId, noFees: bool, noDeposit: bool)
    requires id in s.subs
    ensures Issuance(Terminate(cfg, s, id, noFees, noDeposit).state.balances) == Issuance(s.balances)
  {
    hide Issuance, Release, ManageDiffFees, DepositFor, DiffFees;
    var sub := s.subs[id];
    var who, diff := sub.details.subscriber, DiffFees(cfg, sub.creditsLeft, 0);
    DiffConserves(s.balances, who, diff, noFees);
    var refunded := ManageDiffFees(s.balances, who, diff, noFees);
    if refunded.Some? {
      ReleaseConserves(refunded.value, StorageDeposit, who, DepositFor(cfg, sub), BestEffort, noDeposit);
    }
  }

  lemma DistributeOneConserves(cfg: Config, s: State, id: SubId, now: uint32, limit: Limit, unsent: bool)
    requires id in s.subs
    ensures Issuance(DistributeOne(cfg, s, id, now, limit, unsent).balances) == Issuance(s.balances)
  {
    hide Issuance, TransferFees, CreditFee, Taken;
    var sub := s.subs[id];
    TransferFeesConserves(s.balances, sub.details.subscriber, cfg.treasury, Taken(cfg, s, sub, limit));
  }

  lemma {:induction false} DistributeConserves(cfg: Config, s: State, order: seq<SubId>, now: uint32,
                                               limits: map<SubId, Limit>, unsent: set<SubId>)
    requires forall id :: id in order ==> id in s.subs
    ensures Issuance(Distribute(cfg, s, order, now, limits, unsent).balances) == Issuance(s.balances)
  {
    hide Issuance, DistributeOne;
    if order != [] {
      var id, rest := order[|order| - 1], order[..|order| - 1];
      DistributeConserves(cfg, s, rest, now, limits, unsent);
      var before := Distribute(cfg, s, rest, now, limits, unsent);
      DistributeOneConserves(cfg, before, id, now, LimitFor(limits, id), id in unsent);
    }
  }

  lemma {:induction false} ReapConserves(cfg: Config, s: State, order: seq<SubId>, stuck: set<SubId>)
    ensures Issuance(Reap(cfg, s, order, stuck).state.balances) == Issuance(s.balances)
  {
    hide Issuance, Terminate;
    if order != [] {
      var id, rest := order[|order| - 1], order[..|order| - 1];
      ReapConserves(cfg, s, rest, stuck);
      var r := Reap(cfg, s, rest, stuck);
      if id in r.state.subs { TerminateConserves(cfg, r.state, id, id in stuck, id in stuck); }
    }
  }

  /** Free plus held balance over all accounts, treasury included, is the same after every step. */
  lemma StepConserves(cfg: Config, s: State, c: Call)
    requires Enabled(s, c)
    ensures Issuance(Step(cfg, s, c).balances) == Issuance(s.balances)
  {
    hide Issuance, TransferFree, Create, Terminate, Distribute, Reap, ManageDiffFees;
    match c
    case CreateCall(caller, p, generated, now, noFees, noDeposit) =>
      CreateConserves(cfg, s, caller, p, generated, now, noFees, noDeposit);
    case UpdateCall(caller, target, changes, now, refused) =>
      if target in s.subs {
        var sub := s.subs[target];
        DiffConserves(s.balances, caller, DiffFees(cfg, sub.credits, Amended(sub, changes, now).credits), refused);
      }
    case KillCall(_, target, noFees, noDeposit) =>
      if target in s.subs { TerminateConserves(cfg, s, target, noFees, noDeposit); }
    case Dispatch(now, order, limits, unsent) => DistributeConserves(cfg, s, order, now, limits, unsent);
    case EndBlock(order, stuck) => ReapConserves(cfg, s, order, stuck);
    case Transfer(source, dest, amount) => TransferFreeConserves(s.balances, source, dest, amount);
    case _ =>
  }

  /** Over any run the total issuance never changes. */
  lemma {:induction false} RunConserves(cfg: Config, s: State, calls: seq<Call>)
    requires ValidRun(cfg, s, calls)
    ensures Issuance(Run(cfg, s, calls).balances) == Issuance(s.balances)
    decreases |calls|
  {
    if calls != [] {
      StepConserves(cfg, s, calls[0]);
      RunConserves(cfg, Step(cfg, s, calls[0]), calls[1..]);
    }
  }

  // ---------- what leaves the holds at a dispatch reaches the treasury ----------

  /** Everything taken from fee holds, by collections that succeeded and by those that fell short. */
  function Revenue(j: Journal): nat {
    match j
    case Empty => 0
    case Then(past, FeesCollected(_, fees)) => Revenue(past) + fees
    case Then(past, CollectionFailed(_, _, _, taken, _)) => Revenue(past) + taken
    case Then(past, _) => Revenue(past)
  }

  lemma DistributeOneRevenue(cfg: Config, s: State, id: SubId, now: uint32, limit: Limit, unsent: bool)
    requires id in s.subs
    ensures var s' := DistributeOne(cfg, s, id, now, limit, unsent);
            At(s'.balances.free, cfg.treasury) - Revenue(s'.journal) ==
            At(s.balances.free, cfg.treasury) - Revenue(s.journal)
  {
    hide CreditFee, AfterCollection, Taken;
    var sub := s.subs[id];
    Collected(cfg, s, sub, limit, cfg.treasury);
    var failed := Then(s.journal, FailedCollection(cfg, s, sub, limit, 0));
    assert Revenue(Then(failed, Suspended(id))) == Revenue(failed);
    var paid := Then(s.journal, FeesCollected(sub.id, CreditFee(cfg, sub)));
    var tried := Then(paid, SendAttempted(id, now, sub.frequency));
    assert Revenue(tried) == Revenue(paid);
    assert Revenue(Then(tried, Suspended(id))) == Revenue(Then(tried, Entry.Distributed(id))) == Revenue(tried);
  }

  /** A dispatch adds to the treasury's free balance exactly the fees it journals as taken. */
  lemma {:induction false} DispatchPaysTreasury(cfg: Config, s: State, order: seq<SubId>, now: uint32,
                                                limits: map<SubId, Limit>, unsent: set<SubId>)
    requires forall id :: id in order ==> id in s.subs
    ensures var s' := Distribute(cfg, s, order, now, limits, unsent);
            At(s'.balances.free, cfg.treasury) - At(s.balances.free, cfg.treasury) ==
            Revenue(s'.journal) - Revenue(s.journal)
  {
    hide DistributeOne;
    if order != [] {
      var id, rest := order[|order| - 1], order[..|order| - 1];
      DispatchPaysTreasury(cfg, s, rest, now, limits, unsent);
      var before := Distribute(cfg, s, rest, now, limits, unsent);
      DistributeOneRevenue(cfg, before, id, now, LimitFor(limits, id), id in unsent);
    }
  }
}
