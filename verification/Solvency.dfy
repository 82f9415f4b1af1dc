/** What each account has on hold for fees, against the price of the credits its subscriptions have left. */
module Solvency {
  import opened Outcomes
  import opened Saturating
  import opened Sums
  import opened Currency
  import opened Subscriptions
  import opened ManagerSpec
  import opened ManagerRuns
  import opened Lifecycle

  /** What a subscription owes on behalf of `who`: the price of its credits left, if it is theirs. */
  function Owes(cfg: Config, who: AccountId, sub: Subscription): nat {
    if sub.details.subscriber == who then cfg.price(sub.creditsLeft) else 0
  }

  function FeesOwed(cfg: Config, who: AccountId): Subscription -> nat {
    (sub: Subscription) => Owes(cfg, who, sub)
  }

  /** The price of all credits left over the subscriptions of an account. */
  ghost function FeesDue(cfg: Config, subs: map<SubId, Subscription>, who: AccountId): nat {
    Sum(subs, FeesOwed(cfg, who))
  }

  /** By how much updates and failed collections have moved the hold away from the fees due. */
  function Drift(j: Journal, who: AccountId): int {
    match j
    case Empty => 0
    case Then(past, Updated(_, w, oldFee, newFee, _, _)) => Drift(past, who) + if w == who then newFee - oldFee else 0
    case Then(past, CollectionFailed(_, w, _, taken, forgone)) =>
      Drift(past, who) + if w == who then forgone - taken else 0
    case Then(past, _) => Drift(past, who)
  }

  /** A collection that failed although the hold covered it: the currency cut it short. */
  predicate CutShort(error: FeesError) {
    error.NotEnoughBalance? && error.needed <= error.held
  }

  /**
   * Nothing has drained the hold of this account: no update of its own has lowered the price of a subscription, and
   * no collection cut short by the currency has taken more than the price of the credits it used up.
   */
  predicate NeverDrained(j: Journal, who: AccountId) {
    match j
    case Empty => true
    case Then(past, Updated(_, w, oldFee, newFee, _, _)) => NeverDrained(past, who) && (w == who ==> oldFee <= newFee)
    case Then(past, CollectionFailed(_, w, error, taken, forgone)) =>
      NeverDrained(past, who) && (w == who && CutShort(error) ==> taken <= forgone)
    case Then(past, _) => NeverDrained(past, who)
  }

  /** No update by this account has changed a price, and no collection from it has failed. */
  predicate Undisturbed(j: Journal, who: AccountId) {
    match j
    case Empty => true
    case Then(past, Updated(_, w, oldFee, newFee, _, _)) => Undisturbed(past, who) && (w == who ==> oldFee == newFee)
    case Then(past, CollectionFailed(_, w, _, _, _)) => Undisturbed(past, who) && w != who
    case Then(past, _) => Undisturbed(past, who)
  }

  /** No collection from this account has failed for lack of held funds. */
  predicate NeverShort(j: Journal, who: AccountId) {
    match j
    case Empty => true
    case Then(past, CollectionFailed(_, w, error, _, _)) =>
      NeverShort(past, who) && (w == who ==> error.Other? || CutShort(error))
    case Then(past, _) => NeverShort(past, who)
  }

  /** The hold is the fees due plus the drift; draining is the only way for it to fall short. */
  ghost predicate Balanced(cfg: Config, s: State, who: AccountId) {
    && At(s.balances.fees, who) == FeesDue(cfg, s.subs, who) + Drift(s.journal, who)
    && (NeverDrained(s.journal, who) ==> Drift(s.journal, who) >= 0 && NeverShort(s.journal, who))
  }

  // ---------- how the fees due change ----------

  lemma DuePut(cfg: Config, subs: map<SubId, Subscription>, id: SubId, sub: Subscription, who: AccountId)
    ensures FeesDue(cfg, subs[id := sub], who) ==
            FeesDue(cfg, subs, who) + Owes(cfg, who, sub) - if id in subs then Owes(cfg, who, subs[id]) else 0
  {
    SumPut(subs, FeesOwed(cfg, who), id, sub);
  }

  lemma DueDrop(cfg: Config, subs: map<SubId, Subscription>, id: SubId, who: AccountId)
    requires id in subs
    ensures FeesDue(cfg, subs - {id}, who) == FeesDue(cfg, subs, who) - Owes(cfg, who, subs[id])
  {
    SumDrop(subs, FeesOwed(cfg, who), id);
  }

  /** An account owes at least the price of each one of its subscriptions. */
  lemma DueCovers(cfg: Config, subs: map<SubId, Subscription>, id: SubId)
    requires id in subs
    ensures cfg.price(subs[id].creditsLeft) <= FeesDue(cfg, subs, subs[id].details.subscriber)
  {
    SumAtLeast(subs, FeesOwed(cfg, subs[id].details.subscriber), id);
  }

  /** One credit costs the drop in price, which is never negative. */
  lemma CreditFeeIsDrop(cfg: Config, sub: Subscription)
    ensures CreditFee(cfg, sub) == cfg.price(sub.creditsLeft) - cfg.price(SatSub(sub.creditsLeft, 1))
  {
    var changed := SatSub(sub.creditsLeft, 1);
    assert changed <= sub.creditsLeft && IsPrice(cfg.price);
  }

  // ---------- every step keeps the account balanced ----------

  /** Only updates and failed collections count. */
  lemma Neutral(j: Journal, e: Entry, who: AccountId)
    requires !e.Updated? && !e.CollectionFailed?
    ensures Drift(Then(j, e), who) == Drift(j, who)
    ensures NeverDrained(Then(j, e), who) == NeverDrained(j, who) && NeverShort(Then(j, e), who) == NeverShort(j, who)
  {
  }

  lemma CreateBalanced(cfg: Config, s: State, caller: AccountId, p: CreateParams, generated: SubId, now: uint32,
                       noFees: bool, noDeposit: bool, who: AccountId)
    requires Balanced(cfg, s, who)
    ensures Balanced(cfg, Commit(s, Create(cfg, s, caller, p, generated, now, noFees, noDeposit)), who)
  {
    hide FeesDue, DepositFor;
    var sub := NewSubscription(caller, p, generated, now);
    DuePut(cfg, s.subs, sub.id, sub, who);
  }

  /** Rewriting a subscription without touching its owner or its credits left changes nothing. */
  lemma SameCreditsSameDue(cfg: Config, subs: map<SubId, Subscription>, id: SubId, sub: Subscription, who: AccountId)
    requires id in subs
    requires sub.details == subs[id].details && sub.creditsLeft == subs[id].creditsLeft
    ensures FeesDue(cfg, subs[id := sub], who) == FeesDue(cfg, subs, who)
  {
    hide FeesDue;
    DuePut(cfg, subs, id, sub, who);
  }

  lemma UpdateBalanced(cfg: Config, s: State, caller: AccountId, id: SubId, p: UpdateParams, now: uint32,
                       refused: bool, who: AccountId)
    requires Balanced(cfg, s, who)
    ensures Balanced(cfg, Commit(s, Update(cfg, s, caller, id, p, now, refused)), who)
  {
    hide FeesDue;
    if id in s.subs {
      SameCreditsSameDue(cfg, s.subs, id, Amended(s.subs[id], p, now), who);
    }
  }

  lemma TerminateBalanced(cfg: Config, s: State, id: SubId, noFees: bool, noDeposit: bool, who: AccountId)
    requires Balanced(cfg, s, who) && id in s.subs
    requires var t := Terminate(cfg, s, id, noFees, noDeposit); !t.done ==> s.subs[id].creditsLeft == 0
    ensures Balanced(cfg, Terminate(cfg, s, id, noFees, noDeposit).state, who)
  {
    hide FeesDue, DepositFor;
    var sub := s.subs[id];
    assert 0 <= sub.creditsLeft && IsPrice(cfg.price);
    DueDrop(cfg, s.subs, id, who);
    var released := FeesReleased(id, cfg.price(sub.creditsLeft));
    Neutral(s.journal, released, who);
    Neutral(Then(s.journal, released), Entry.Terminated(id), who);
  }

  /** A collection falls short only when the hold is below the fees due. */
  lemma ShortOnlyBelowDue(cfg: Config, s: State, id: SubId)
    requires id in s.subs
    ensures var sub := s.subs[id];
            At(s.balances.fees, sub.details.subscriber) < CreditFee(cfg, sub) ==>
              At(s.balances.fees, sub.details.subscriber) < FeesDue(cfg, s.subs, sub.details.subscriber)
  {
    hide FeesDue;
    DueCovers(cfg, s.subs, id);
    CreditFeeIsDrop(cfg, s.subs[id]);
  }

  lemma DeliverBalanced(cfg: Config, s: State, id: SubId, now: uint32, limit: Limit, unsent: bool, who: AccountId)
    requires Balanced(cfg, s, who) && id in s.subs
    ensures Balanced(cfg, Deliver(cfg, s, id, now, limit, unsent), who)
  {
    hide FeesDue, CreditFee, AfterCollection, Taken;
    var sub := s.subs[id];
    Collected(cfg, s, sub, limit, who);
    CreditFeeIsDrop(cfg, sub);
    ShortOnlyBelowDue(cfg, s, id);
    SameCreditsSameDue(cfg, s.subs, id, sub.(state := Paused), who);
    DuePut(cfg, s.subs, id, Served(sub, now).(state := Paused), who);
    DuePut(cfg, s.subs, id, Settle(Served(sub, now)), who);
    var failed := Then(s.journal, FailedCollection(cfg, s, sub, limit, 0));
    Neutral(failed, Suspended(id), who);
    var paid := Then(s.journal, FeesCollected(sub.id, CreditFee(cfg, sub)));
    var tried := Then(paid, SendAttempted(id, now, sub.frequency));
    Neutral(s.journal, paid.latest, who);
    Neutral(paid, tried.latest, who);
    Neutral(tried, Suspended(id), who);
    Neutral(tried, Entry.Distributed(id), who);
  }

  lemma IdleBalanced(cfg: Config, s: State, id: SubId, limit: Limit, who: AccountId)
    requires Balanced(cfg, s, who) && id in s.subs
    ensures Balanced(cfg, Idle(cfg, s, id, limit), who)
  {
    hide FeesDue, CreditFee, AfterCollection, Taken;
    var sub := s.subs[id];
    Collected(cfg, s, sub, limit, who);
    CreditFeeIsDrop(cfg, sub);
    ShortOnlyBelowDue(cfg, s, id);
    DuePut(cfg, s.subs, id, Settle(sub.(creditsLeft := SatSub(sub.creditsLeft, 1))), who);
  }

  lemma {:induction false} DistributeBalanced(cfg: Config, s: State, order: seq<SubId>, now: uint32,
                                              limits: map<SubId, Limit>, unsent: set<SubId>, who: AccountId)
    requires Balanced(cfg, s, who) && forall id :: id in order ==> id in s.subs
    ensures Balanced(cfg, Distribute(cfg, s, order, now, limits, unsent), who)
  {
    hide Balanced, Deliver, Idle;
    if order != [] {
      var id, rest := order[|order| - 1], order[..|order| - 1];
      DistributeBalanced(cfg, s, rest, now, limits, unsent, who);
      var before := Distribute(cfg, s, rest, now, limits, unsent);
      DeliverBalanced(cfg, before, id, now, LimitFor(limits, id), id in unsent, who);
      IdleBalanced(cfg, before, id, LimitFor(limits, id), who);
    }
  }

  lemma {:induction false} ReapBalanced(cfg: Config, s: State, order: seq<SubId>, stuck: set<SubId>, who: AccountId)
    requires Balanced(cfg, s, who) && Orderly(cfg, s)
    ensures Balanced(cfg, Reap(cfg, s, order, stuck).state, who)
  {
    hide Balanced, Terminate;
    if order != [] {
      var id, rest := order[|order| - 1], order[..|order| - 1];
      ReapBalanced(cfg, s, rest, stuck, who);
      ReapOrderly(cfg, s, rest, stuck);
      var r := Reap(cfg, s, rest, stuck);
      if FinalizedIn(r.state, id) {
        assert Sound(id, r.state.subs[id]);
        TerminateBalanced(cfg, r.state, id, id in stuck, id in stuck, who);
      }
    }
  }

  lemma StepBalanced(cfg: Config, s: State, c: Call, who: AccountId)
    requires Balanced(cfg, s, who) && Orderly(cfg, s) && Enabled(s, c)
    ensures Balanced(cfg, Step(cfg, s, c), who)
  {
    hide FeesDue, Create, Update, Terminate, Distribute, Reap;
    match c
    case CreateCall(caller, p, generated, now, noFees, noDeposit) =>
      CreateBalanced(cfg, s, caller, p, generated, now, noFees, noDeposit, who);
    case PauseCall(_, target) =>
      if target in s.subs { SameCreditsSameDue(cfg, s.subs, target, s.subs[target].(state := Paused), who); }
    case ReactivateCall(_, target) =>
      if target in s.subs { SameCreditsSameDue(cfg, s.subs, target, s.subs[target].(state := Active), who); }
    case UpdateCall(caller, target, changes, now, refused) =>
      UpdateBalanced(cfg, s, caller, target, changes, now, refused, who);
    case KillCall(_, target, noFees, noDeposit) =>
      if target in s.subs && Terminate(cfg, s, target, noFees, noDeposit).done {
        TerminateBalanced(cfg, s, target, noFees, noDeposit, who);
      }
    case Dispatch(now, order, limits, unsent) => DistributeBalanced(cfg, s, order, now, limits, unsent, who);
    case EndBlock(order, stuck) => ReapBalanced(cfg, s, order, stuck, who);
    case Transfer(_, _, _) =>
  }

  lemma {:induction false} RunBalanced(cfg: Config, s: State, calls: seq<Call>, who: AccountId)
    requires Balanced(cfg, s, who) && Orderly(cfg, s) && ValidRun(cfg, s, calls)
    ensures Balanced(cfg, Run(cfg, s, calls), who)
    decreases |calls|
  {
    hide Balanced, Orderly, Step, Enabled;
    if calls != [] {
      StepBalanced(cfg, s, calls[0], who);
      StepOrderly(cfg, s, calls[0]);
      RunBalanced(cfg, Step(cfg, s, calls[0]), calls[1..], who);
    }
  }

  lemma GenesisBalanced(cfg: Config, s: State, who: AccountId)
    requires Genesis(s)
    ensures Balanced(cfg, s, who) && Orderly(cfg, s)
  {
    assert FeesDue(cfg, map[], who) == 0;
  }

  lemma {:induction false} UndisturbedNoDrift(j: Journal, who: AccountId)
    requires Undisturbed(j, who)
    ensures Drift(j, who) == 0
  {
    if j.Then? { UndisturbedNoDrift(j.past, who); }
  }

  // ---------- what every run guarantees ----------

  /**
   * In every run, whatever is updated, refused, cut short or unsent: an account's hold is the price of the credits
   * its subscriptions have left plus the drift. Unless it was drained, the hold covers that price and no collection
   * ever fails for lack of funds; with no price change and no failed collection it is that price.
   */
  lemma FeesAccounted(cfg: Config, s: State, calls: seq<Call>, who: AccountId)
    requires Genesis(s) && ValidRun(cfg, s, calls)
    ensures var s' := Run(cfg, s, calls); var held, due := At(s'.balances.fees, who), FeesDue(cfg, s'.subs, who);
            && held == due + Drift(s'.journal, who)
            && (NeverDrained(s'.journal, who) ==> due <= held && NeverShort(s'.journal, who))
            && (Undisturbed(s'.journal, who) ==> due == held)
  {
    GenesisBalanced(cfg, s, who);
    RunBalanced(cfg, s, calls, who);
    var s' := Run(cfg, s, calls);
    if Undisturbed(s'.journal, who) { UndisturbedNoDrift(s'.journal, who); }
  }

  /**
   * A kill, by whoever it is and when the currency itself does not refuse, succeeds exactly if the subscription is
   * stored, is the caller's, and the hold has the refund.
   */
  lemma KillSucceedsIff(cfg: Config, s: State, caller: AccountId, id: SubId)
    ensures Kill(cfg, s, caller, id, false, false).Success? <==>
            && id in s.subs && s.subs[id].details.subscriber == caller
            && cfg.price(s.subs[id].creditsLeft) <= At(s.balances.fees, caller)
  {
    assert IsPrice(cfg.price);
    if id in s.subs { assert 0 <= s.subs[id].creditsLeft; }
  }

  /** Unless the owner's hold was drained, killing always refunds the price of the credits left, in full. */
  lemma KillAlwaysRefunds(cfg: Config, s: State, calls: seq<Call>, id: SubId)
    requires Genesis(s) && ValidRun(cfg, s, calls) && id in Run(cfg, s, calls).subs
    requires var s' := Run(cfg, s, calls); NeverDrained(s'.journal, s'.subs[id].details.subscriber)
    ensures var s' := Run(cfg, s, calls); var sub := s'.subs[id]; var who := sub.details.subscriber;
            var killed := Kill(cfg, s', who, id, false, false);
            && killed.Success? && id !in killed.value.subs
            && At(killed.value.balances.free, who) == At(s'.balances.free, who) + cfg.price(sub.creditsLeft) +
                                                      Min(DepositFor(cfg, sub), At(s'.balances.deposit, who))
  {
    hide FeesDue, Run, ValidRun, DepositFor;
    var s' := Run(cfg, s, calls);
    FeesAccounted(cfg, s, calls, s'.subs[id].details.subscriber);
    DueCovers(cfg, s'.subs, id);
    KillSucceedsIff(cfg, s', s'.subs[id].details.subscriber, id);
    assert 0 <= s'.subs[id].creditsLeft && IsPrice(cfg.price);
  }

  /** An update keeps the hold sufficient exactly when the price drop fits in what is held beyond the fees due. */
  lemma UpdateKeepsCoverIff(cfg: Config, s: State, caller: AccountId, id: SubId, p: UpdateParams, now: uint32)
    requires FeesDue(cfg, s.subs, caller) <= At(s.balances.fees, caller)
    requires Update(cfg, s, caller, id, p, now, false).Success?
    ensures var s' := Update(cfg, s, caller, id, p, now, false).value;
            var drop := cfg.price(s.subs[id].credits) - cfg.price(s'.subs[id].credits);
            FeesDue(cfg, s'.subs, caller) <= At(s'.balances.fees, caller) <==>
              drop <= At(s.balances.fees, caller) - FeesDue(cfg, s.subs, caller)
  {
    hide FeesDue;
    SameCreditsSameDue(cfg, s.subs, id, Amended(s.subs[id], p, now), caller);
  }

  /**
   * Lowering a price strands the refund: create with some credits, update to others, kill. The update goes through
   * unless it raises the price by more than the account has free. With nothing else on hold for fees the kill then
   * succeeds exactly when the update did not lower the price.
   */
  lemma LoweredPriceBlocksKill(cfg: Config, s: State, caller: AccountId, p: CreateParams, id: SubId, changed: uint64,
                               now: uint32)
    requires At(s.balances.fees, caller) == 0
    requires Create(cfg, s, caller, p, id, now, false, false).Success? && p.subId == Some(id)
    ensures var s1 := Create(cfg, s, caller, p, id, now, false, false).value;
            var r := Update(cfg, s1, caller, id, UpdateParams(Some(changed), None, None), now, false);
            && (r.Success? <==> cfg.price(changed) - cfg.price(p.credits) <= At(s1.balances.free, caller))
            && (cfg.price(changed) < cfg.price(p.credits) ==>
                  r.Success? && Kill(cfg, r.value, caller, id, false, false).Failure?)
            && (r.Success? && cfg.price(p.credits) <= cfg.price(changed) ==>
                  Kill(cfg, r.value, caller, id, false, false).Success?)
  {
    hide DepositFor;
    var s1 := Create(cfg, s, caller, p, id, now, false, false).value;
    var r := Update(cfg, s1, caller, id, UpdateParams(Some(changed), None, None), now, false);
    if r.Success? { KillSucceedsIff(cfg, r.value, caller, id); }
  }

  /**
   * A collection cut short drains the hold: create, then have the first collection at a delivery take at most `most`.
   * What it takes is gone although the credit is not used up, so with nothing else on hold for fees the kill that
   * follows succeeds exactly when nothing was taken or the whole fee.
   */
  lemma CutShortBlocksKill(cfg: Config, s: State, caller: AccountId, p: CreateParams, id: SubId, now: uint32, most: nat)
    requires At(s.balances.fees, caller) == 0
    requires Create(cfg, s, caller, p, id, now, false, false).Success? && p.subId == Some(id)
    ensures var s1 := Create(cfg, s, caller, p, id, now, false, false).value;
            var fee, s2 := CreditFee(cfg, s1.subs[id]), DistributeOne(cfg, s1, id, now, AtMost(most), false);
            && (most < fee ==> s2.subs[id] == s1.subs[id].(state := Paused))
            && (Kill(cfg, s2, caller, id, false, false).Success? <==> most == 0 || fee <= most)
  {
    hide DepositFor, CreditFee;
    var s1 := Create(cfg, s, caller, p, id, now, false, false).value;
    CreditFeeIsDrop(cfg, s1.subs[id]);
    KillSucceedsIff(cfg, DistributeOne(cfg, s1, id, now, AtMost(most), false), caller, id);
  }
}
