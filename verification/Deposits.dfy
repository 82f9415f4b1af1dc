/** What each account has on hold for storage, against the deposits its subscriptions would take now. */
module Deposits {
  import opened Outcomes
  import opened Saturating
  import opened Sums
  import opened Currency
  import opened Subscriptions
  import opened ManagerSpec
  import opened ManagerRuns

  function Secures(cfg: Config, who: AccountId, sub: Subscription): nat {
    if sub.details.subscriber == who then DepositFor(cfg, sub) else 0
  }

  function DepositOf(cfg: Config, who: AccountId): Subscription -> nat {
    (sub: Subscription) => Secures(cfg, who, sub)
  }

  /** The deposits the subscriptions of an account would take at their current size. */
  ghost function DepositsDue(cfg: Config, subs: map<SubId, Subscription>, who: AccountId): nat {
    Sum(subs, DepositOf(cfg, who))
  }

  /** No update by this account has made a subscription smaller. */
  predicate NeverShrunk(j: Journal, who: AccountId) {
    match j
    case Empty => true
    case Then(past, Updated(_, w, _, _, oldDeposit, newDeposit)) =>
      NeverShrunk(past, who) && (w == who ==> oldDeposit <= newDeposit)
    case Then(past, _) => NeverShrunk(past, who)
  }

  /** The hold for storage is no more than the subscriptions can still give back. */
  ghost predicate Secured(cfg: Config, s: State, who: AccountId) {
    NeverShrunk(s.journal, who) ==> At(s.balances.deposit, who) <= DepositsDue(cfg, s.subs, who)
  }

  // ---------- how the deposits due change ----------

  lemma DuePut(cfg: Config, subs: map<SubId, Subscription>, id: SubId, sub: Subscription, who: AccountId)
    ensures DepositsDue(cfg, subs[id := sub], who) ==
            DepositsDue(cfg, subs, who) + Secures(cfg, who, sub) - if id in subs then Secures(cfg, who, subs[id]) else 0
  {
    SumPut(subs, DepositOf(cfg, who), id, sub);
  }

  lemma DueDrop(cfg: Config, subs: map<SubId, Subscription>, id: SubId, who: AccountId)
    requires id in subs
    ensures DepositsDue(cfg, subs - {id}, who) == DepositsDue(cfg, subs, who) - Secures(cfg, who, subs[id])
  {
    SumDrop(subs, DepositOf(cfg, who), id);
  }

  lemma ScaledDeposit(multiplier: uint128, x: uint128, y: uint128)
    requires x <= y
    ensures SatMul128(multiplier, x) <= SatMul128(multiplier, y)
  {
    assert multiplier * x <= multiplier * y;
  }

  /** A larger subscription never takes a smaller deposit. */
  lemma DepositMonotone(cfg: Config, a: Subscription, b: Subscription)
    requires EncodedSize(a) <= EncodedSize(b)
    ensures DepositFor(cfg, a) <= DepositFor(cfg, b)
  {
    hide EncodedSize, SatMul128;
    ScaledDeposit(cfg.depositMultiplier, Min(EncodedSize(a), U64_MAX), Min(EncodedSize(b), U64_MAX));
  }

  /** Replacing a subscription by one of the same owner and no smaller size keeps the hold secured. */
  lemma GrowingDue(cfg: Config, subs: map<SubId, Subscription>, id: SubId, sub: Subscription, who: AccountId)
    requires id in subs && sub.details == subs[id].details && EncodedSize(subs[id]) <= EncodedSize(sub)
    ensures DepositsDue(cfg, subs, who) <= DepositsDue(cfg, subs[id := sub], who)
  {
    hide DepositsDue, DepositFor, EncodedSize;
    DepositMonotone(cfg, subs[id], sub);
    DuePut(cfg, subs, id, sub, who);
  }

  // ---------- every step keeps the hold secured ----------

  lemma Neutral(j: Journal, e: Entry, who: AccountId)
    requires !e.Updated?
    ensures NeverShrunk(Then(j, e), who) == NeverShrunk(j, who)
  {
  }

  lemma CreateSecured(cfg: Config, s: State, caller: AccountId, p: CreateParams, generated: SubId, now: uint32,
                      noFees: bool, noDeposit: bool, who: AccountId)
    requires Secured(cfg, s, who)
    ensures Secured(cfg, Commit(s, Create(cfg, s, caller, p, generated, now, noFees, noDeposit)), who)
  {
    hide DepositsDue, DepositFor;
    var sub := NewSubscription(caller, p, generated, now);
    DuePut(cfg, s.subs, sub.id, sub, who);
  }

  lemma UpdateSecured(cfg: Config, s: State, caller: AccountId, id: SubId, p: UpdateParams, now: uint32,
                      refused: bool, who: AccountId)
    requires Secured(cfg, s, who)
    ensures Secured(cfg, Commit(s, Update(cfg, s, caller, id, p, now, refused)), who)
  {
    hide DepositsDue, DepositFor;
    if id in s.subs {
      DuePut(cfg, s.subs, id, Amended(s.subs[id], p, now), who);
    }
  }

  lemma TerminateSecured(cfg: Config, s: State, id: SubId, noFees: bool, noDeposit: bool, who: AccountId)
    requires Secured(cfg, s, who) && id in s.subs
    ensures Secured(cfg, Terminate(cfg, s, id, noFees, noDeposit).state, who)
  {
    hide DepositsDue, DepositFor;
    DueDrop(cfg, s.subs, id, who);
    var released := FeesReleased(id, cfg.price(s.subs[id].creditsLeft));
    Neutral(s.journal, released, who);
    Neutral(Then(s.journal, released), Entry.Terminated(id), who);
  }

  lemma DeliverSecured(cfg: Config, s: State, id: SubId, now: uint32, limit: Limit, unsent: bool, who: AccountId)
    requires Secured(cfg, s, who) && id in s.subs
    ensures Secured(cfg, Deliver(cfg, s, id, now, limit, unsent), who)
  {
    hide DepositsDue, CreditFee;
    var sub := s.subs[id];
    GrowingDue(cfg, s.subs, id, sub.(state := Paused), who);
    GrowingDue(cfg, s.subs, id, Served(sub, now).(state := Paused), who);
    GrowingDue(cfg, s.subs, id, Settle(Served(sub, now)), who);
    var failed := Then(s.journal, FailedCollection(cfg, s, sub, limit, 0));
    Neutral(s.journal, failed.latest, who);
    Neutral(failed, Suspended(id), who);
    var paid := Then(s.journal, FeesCollected(sub.id, CreditFee(cfg, sub)));
    var tried := Then(paid, SendAttempted(id, now, sub.frequency));
    Neutral(s.journal, paid.latest, who);
    Neutral(paid, tried.latest, who);
    Neutral(tried, Suspended(id), who);
    Neutral(tried, Entry.Distributed(id), who);
  }

  lemma IdleSecured(cfg: Config, s: State, id: SubId, limit: Limit, who: AccountId)
    requires Secured(cfg, s, who) && id in s.subs
    ensures Secured(cfg, Idle(cfg, s, id, limit), who)
  {
    hide DepositsDue, CreditFee;
    var sub := s.subs[id];
    GrowingDue(cfg, s.subs, id, Settle(sub.(creditsLeft := SatSub(sub.creditsLeft, 1))), who);
  }

  lemma {:induction false} DistributeSecured(cfg: Config, s: State, order: seq<SubId>, now: uint32,
                                             limits: map<SubId, Limit>, unsent: set<SubId>, who: AccountId)
    requires Secured(cfg, s, who) && forall id :: id in order ==> id in s.subs
    ensures Secured(cfg, Distribute(cfg, s, order, now, limits, unsent), who)
  {
    hide Secured, Deliver, Idle;
    if order != [] {
      var id, rest := order[|order| - 1], order[..|order| - 1];
      DistributeSecured(cfg, s, rest, now, limits, unsent, who);
      var before := Distribute(cfg, s, rest, now, limits, unsent);
      DeliverSecured(cfg, before, id, now, LimitFor(limits, id), id in unsent, who);
      IdleSecured(cfg, before, id, LimitFor(limits, id), who);
    }
  }

  lemma {:induction false} ReapSecured(cfg: Config, s: State, order: seq<SubId>, stuck: set<SubId>, who: AccountId)
    requires Secured(cfg, s, who)
    ensures Secured(cfg, Reap(cfg, s, order, stuck).state, who)
  {
    hide Secured, Terminate;
    if order != [] {
      var id, rest := order[|order| - 1], order[..|order| - 1];
      ReapSecured(cfg, s, rest, stuck, who);
      var r := Reap(cfg, s, rest, stuck);
      if id in r.state.subs { TerminateSecured(cfg, r.state, id, id in stuck, id in stuck, who); }
    }
  }

  lemma StepSecured(cfg: Config, s: State, c: Call, who: AccountId)
    requires Secured(cfg, s, who) && Enabled(s, c)
    ensures Secured(cfg, Step(cfg, s, c), who)
  {
    hide DepositsDue, Create, Update, Terminate, Distribute, Reap, DepositFor;
    match c
    case CreateCall(caller, p, generated, now, noFees, noDeposit) =>
      CreateSecured(cfg, s, caller, p, generated, now, noFees, noDeposit, who);
    case PauseCall(_, target) =>
      if target in s.subs { GrowingDue(cfg, s.subs, target, s.subs[target].(state := Paused), who); }
    case ReactivateCall(_, target) =>
      if target in s.subs { GrowingDue(cfg, s.subs, target, s.subs[target].(state := Active), who); }
    case UpdateCall(caller, target, changes, now, refused) =>
      UpdateSecured(cfg, s, caller, target, changes, now, refused, who);
    case KillCall(_, target, noFees, noDeposit) =>
      if target in s.subs { TerminateSecured(cfg, s, target, noFees, noDeposit, who); }
    case Dispatch(now, order, limits, unsent) => DistributeSecured(cfg, s, order, now, limits, unsent, who);
    case EndBlock(order, stuck) => ReapSecured(cfg, s, order, stuck, who);
    case Transfer(_, _, _) =>
  }

  lemma {:induction false} RunSecured(cfg: Config, s: State, calls: seq<Call>, who: AccountId)
    requires Secured(cfg, s, who) && ValidRun(cfg, s, calls)
    ensures Secured(cfg, Run(cfg, s, calls), who)
    decreases |calls|
  {
    hide Secured, Step, Enabled;
    if calls != [] {
      StepSecured(cfg, s, calls[0], who);
      RunSecured(cfg, Step(cfg, s, calls[0]), calls[1..], who);
    }
  }

  /**
   * Unless an account made one of its subscriptions smaller, its hold for storage never exceeds what its
   * subscriptions can still give back, so nothing is left on hold once its last subscription is gone.
   */
  lemma DepositsComeBack(cfg: Config, s: State, calls: seq<Call>, who: AccountId)
    requires Genesis(s) && ValidRun(cfg, s, calls)
    requires NeverShrunk(Run(cfg, s, calls).journal, who)
    ensures var s' := Run(cfg, s, calls);
            && At(s'.balances.deposit, who) <= DepositsDue(cfg, s'.subs, who)
            && ((forall id :: id in s'.subs ==> s'.subs[id].details.subscriber != who) ==>
                  At(s'.balances.deposit, who) == 0)
  {
    RunSecured(cfg, s, calls, who);
    var s' := Run(cfg, s, calls);
    if forall id :: id in s'.subs ==> s'.subs[id].details.subscriber != who {
      SumZero(s'.subs, DepositOf(cfg, who));
    }
  }

  /**
   * Shrinking strands part of the deposit: create, update the metadata, kill. Both calls always go through, and
   * with no other deposit on hold everything comes back exactly when the updated subscription takes no smaller a
   * deposit.
   */
  lemma ShrunkDepositIsStranded(cfg: Config, s: State, caller: AccountId, p: CreateParams, id: SubId,
                                metadata: Option<seq<uint8>>, now: uint32)
    requires At(s.balances.deposit, caller) == 0
    requires p.subId == Some(id) && Create(cfg, s, caller, p, id, now, false, false).Success?
    ensures var s1 := Create(cfg, s, caller, p, id, now, false, false).value;
            var r := Update(cfg, s1, caller, id, UpdateParams(None, None, Some(metadata)), now, false);
            && r.Success? && Kill(cfg, r.value, caller, id, false, false).Success?
            && (At(Kill(cfg, r.value, caller, id, false, false).value.balances.deposit, caller) == 0 <==>
                DepositFor(cfg, s1.subs[id]) <= DepositFor(cfg, r.value.subs[id]))
  {
    hide DepositFor;
    assert IsPrice(cfg.price);
  }
}
