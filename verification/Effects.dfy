/** What callers can rely on: who may make a call, exactly when it succeeds, and what it changes, field by field. */
module Effects {
  import opened Outcomes
  import opened Saturating
  import opened Scale
  import opened Currency
  import opened Subscriptions
  import opened ManagerSpec
  import opened ManagerRuns
  import opened Lifecycle
  import opened Histories
  import Solvency

  // ---------- only the subscriber may change a subscription ----------

  /** A call about a stored subscription: by whom, about which. */
  predicate CallOn(c: Call, who: AccountId, id: SubId) {
    match c
    case PauseCall(caller, target) => caller == who && target == id
    case ReactivateCall(caller, target) => caller == who && target == id
    case UpdateCall(caller, target, _, _, _) => caller == who && target == id
    case KillCall(caller, target, _, _) => caller == who && target == id
    case _ => false
  }

  /** Anyone but the subscriber is told so by each of the four calls, and nothing changes. */
  lemma StrangersAreRefused(cfg: Config, s: State, caller: AccountId, id: SubId, p: UpdateParams, now: uint32,
                            refused: bool, noFees: bool, noDeposit: bool, c: Call)
    requires id in s.subs && s.subs[id].details.subscriber != caller
    ensures Pause(s, caller, id) == Reactivate(s, caller, id) == Failure(NotSubscriber)
    ensures Update(cfg, s, caller, id, p, now, refused) == Failure(NotSubscriber)
    ensures Kill(cfg, s, caller, id, noFees, noDeposit) == Failure(NotSubscriber)
    ensures CallOn(c, caller, id) ==> Enabled(s, c) && Step(cfg, s, c) == s
  {
    hide Terminate, ManageDiffFees, DepositFor;
  }

  /** Calls about a subscription that is not stored say so, and nothing changes. */
  lemma MissingIsReported(cfg: Config, s: State, caller: AccountId, id: SubId, p: UpdateParams, now: uint32,
                          refused: bool, noFees: bool, noDeposit: bool, c: Call)
    requires id !in s.subs
    ensures Pause(s, caller, id) == Reactivate(s, caller, id) == Failure(SubscriptionDoesNotExist)
    ensures Update(cfg, s, caller, id, p, now, refused) == Failure(SubscriptionDoesNotExist)
    ensures Kill(cfg, s, caller, id, noFees, noDeposit) == Failure(SubscriptionDoesNotExist)
    ensures CallOn(c, caller, id) ==> Enabled(s, c) && Step(cfg, s, c) == s
  {
    hide Terminate, ManageDiffFees, DepositFor;
  }

  /** The subscriber's own calls, dispatches and block ends: all that can touch a stored subscription. */
  predicate MayTouch(c: Call, owner: AccountId, id: SubId) {
    c.Dispatch? || c.EndBlock? || CallOn(c, owner, id)
  }

  lemma UntouchedStep(cfg: Config, s: State, c: Call, id: SubId)
    requires id in s.subs && Enabled(s, c) && !MayTouch(c, s.subs[id].details.subscriber, id)
    ensures id in Step(cfg, s, c).subs && Step(cfg, s, c).subs[id] == s.subs[id]
  {
    hide ManageDiffFees, Hold, Release, DepositFor;
  }

  /** Over any run without calls by its subscriber, dispatches and block ends a subscription stays as it is. */
  lemma {:induction false} OnlyOwnersChange(cfg: Config, s: State, calls: seq<Call>, id: SubId)
    requires id in s.subs && ValidRun(cfg, s, calls)
    requires forall i :: 0 <= i < |calls| ==> !MayTouch(calls[i], s.subs[id].details.subscriber, id)
    ensures id in Run(cfg, s, calls).subs && Run(cfg, s, calls).subs[id] == s.subs[id]
    decreases |calls|
  {
    hide Step, Enabled, MayTouch;
    if calls != [] {
      UntouchedStep(cfg, s, calls[0], id);
      OnlyOwnersChange(cfg, Step(cfg, s, calls[0]), calls[1..], id);
    }
  }

  // ---------- what stays the same while a subscription is stored ----------

  /** Whose it is and since when; and unless it was updated, all that was agreed on. */
  predicate SameTerms(a: Subscription, b: Subscription, updated: bool) {
    && b.id == a.id && b.details == a.details && b.createdAt == a.createdAt
    && (!updated ==>
          && b.credits == a.credits && b.frequency == a.frequency && b.metadata == a.metadata
          && b.updatedAt == a.updatedAt)
  }

  lemma TurnKeepsTerms(cfg: Config, s: State, target: SubId, now: uint32, limit: Limit, unsent: bool, id: SubId)
    requires id in s.subs && target in s.subs
    ensures var s' := DistributeOne(cfg, s, target, now, limit, unsent);
            id in s'.subs && SameTerms(s.subs[id], s'.subs[id], false)
  {
    hide DistributeOne, CanPay, IsDue;
    TurnOutcome(cfg, s, target, now, limit, unsent);
  }

  lemma {:induction false} DispatchKeepsTerms(cfg: Config, s: State, order: seq<SubId>, now: uint32,
                                              limits: map<SubId, Limit>, unsent: set<SubId>, id: SubId)
    requires id in s.subs && forall k :: k in order ==> k in s.subs
    ensures SameTerms(s.subs[id], Distribute(cfg, s, order, now, limits, unsent).subs[id], false)
  {
    hide DistributeOne;
    if order != [] {
      var target, rest := order[|order| - 1], order[..|order| - 1];
      DispatchKeepsTerms(cfg, s, rest, now, limits, unsent, id);
      var before := Distribute(cfg, s, rest, now, limits, unsent);
      TurnKeepsTerms(cfg, before, target, now, LimitFor(limits, target), target in unsent, id);
    }
  }

  /** No call changes the terms of a subscription that stays stored, except its subscriber's own update. */
  lemma TermsAreKept(cfg: Config, s: State, c: Call, id: SubId)
    requires id in s.subs && Enabled(s, c) && id in Step(cfg, s, c).subs
    ensures var sub := s.subs[id];
            SameTerms(sub, Step(cfg, s, c).subs[id], c.UpdateCall? && CallOn(c, sub.details.subscriber, id))
  {
    hide ManageDiffFees, Hold, Release, DepositFor, Distribute, Reap;
    match c
    case Dispatch(now, order, limits, unsent) => DispatchKeepsTerms(cfg, s, order, now, limits, unsent, id);
    case EndBlock(order, stuck) => ReapGoneOrSame(cfg, s, order, stuck, id);
    case _ =>
  }

  // ---------- create ----------

  /** Nobody else's balances differ. */
  ghost predicate OthersKeep(b: Balances, b': Balances, who: AccountId) {
    forall other: AccountId :: other != who ==>
      && At(b'.free, other) == At(b.free, other) && At(b'.fees, other) == At(b.fees, other)
      && At(b'.deposit, other) == At(b.deposit, other)
  }

  /** What changes of an account's free balance and holds. */
  ghost predicate Moved(b: Balances, b': Balances, who: AccountId, free: int, fees: int, deposit: int) {
    && At(b'.free, who) == At(b.free, who) + free && At(b'.fees, who) == At(b.fees, who) + fees
    && At(b'.deposit, who) == At(b.deposit, who) + deposit
    && OthersKeep(b, b', who)
  }

  /** What a subscription looks like when it has just been created. */
  predicate JustCreated(sub: Subscription, id: SubId, caller: AccountId, p: CreateParams, now: uint32) {
    && sub.id == id && sub.details.subscriber == caller && sub.details.encodedSize == p.encodedSize
    && sub.creditsLeft == p.credits && sub.credits == p.credits && sub.state.Active?
    && sub.createdAt == now && sub.updatedAt == now && sub.frequency == p.frequency && sub.metadata == p.metadata
    && sub.lastDelivered.None?
  }

  /**
   * Creating succeeds exactly if credits are asked for, there is room, the id (the one given, or else the generated
   * one) is not taken and the caller can pay fees and deposit together. It then stores that subscription and nothing
   * else, and moves exactly those two amounts from the caller's free balance onto the two holds.
   */
  lemma CreateIff(cfg: Config, s: State, caller: AccountId, p: CreateParams, generated: SubId, now: uint32,
                  sub: Subscription)
    requires JustCreated(sub, if p.subId.Some? then p.subId.value else generated, caller, p, now)
    ensures var fees: int, deposit: int := cfg.price(p.credits), DepositFor(cfg, sub);
            var r := Create(cfg, s, caller, p, generated, now, false, false);
            && (r.Success? <==>
                  && p.credits > 0 && s.counter < cfg.maxSubscriptions && sub.id !in s.subs
                  && fees + deposit <= At(s.balances.free, caller))
            && (r.Success? ==>
                  && r.value.subs == s.subs[sub.id := sub] && r.value.counter == s.counter + 1
                  && Moved(s.balances, r.value.balances, caller, -fees - deposit, fees, deposit)
                  && r.value.journal == Then(s.journal, Created(sub.id, p.credits)))
  {
    hide DepositFor;
    assert NewSubscription(caller, p, generated, now) == sub;
  }

  /** Each refusal of a creation says why, the first reason that applies. */
  lemma CreateErrors(cfg: Config, s: State, caller: AccountId, p: CreateParams, generated: SubId, now: uint32,
                     noFees: bool, noDeposit: bool)
    ensures var r := Create(cfg, s, caller, p, generated, now, noFees, noDeposit);
            var taken := (if p.subId.Some? then p.subId.value else generated) in s.subs;
            && (r == Failure(InvalidParams) <==> p.credits == 0)
            && (r == Failure(TooManySubscriptions) <==> p.credits > 0 && s.counter >= cfg.maxSubscriptions)
            && (r == Failure(SubscriptionAlreadyExists) <==>
                  p.credits > 0 && s.counter < cfg.maxSubscriptions && taken)
            && (r.Failure? && p.credits > 0 && s.counter < cfg.maxSubscriptions && !taken ==>
                  r.error == CurrencyError)
            && (noFees || noDeposit ==> r.Failure?)
  {
    hide DepositFor;
  }

  // ---------- pause and reactivate ----------

  /**
   * The subscriber can pause exactly an active subscription. That changes only its state, and reactivating, which
   * succeeds exactly on a paused one, restores storage and balances as they were.
   */
  lemma PauseAndReactivate(s: State, id: SubId)
    requires id in s.subs
    ensures var who, sub := s.subs[id].details.subscriber, s.subs[id];
            var paused, active := Pause(s, who, id), Reactivate(s, who, id);
            && (paused.Success? <==> sub.state.Active?) && (active.Success? <==> sub.state.Paused?)
            && (paused.Failure? ==> paused.error == SubscriptionInvalidTransition)
            && (active.Failure? ==> active.error == SubscriptionInvalidTransition)
            && (paused.Success? ==>
                  && paused.value.subs == s.subs[id := sub.(state := Paused)]
                  && paused.value.balances == s.balances && paused.value.counter == s.counter
                  && paused.value.journal == Then(s.journal, Suspended(id))
                  && var back := Reactivate(paused.value, who, id);
                     && back.Success? && back.value.subs == s.subs && back.value.balances == s.balances
                     && back.value.counter == s.counter
                     && back.value.journal == Then(paused.value.journal, Entry.Reactivated(id)))
            && (active.Success? ==> active.value.subs[id] == sub.(state := Active))
  {
    assert s.subs[id := s.subs[id].(state := Paused)][id := s.subs[id]] == s.subs;
  }

  // ---------- update ----------

  /** What was asked for replaces what was there; what was not asked about stays. */
  predicate Revised(a: Subscription, b: Subscription, p: UpdateParams, now: uint32) {
    && b.credits == (match p.credits case None => a.credits case Some(c) => c)
    && b.frequency == (match p.frequency case None => a.frequency case Some(f) => f)
    && b.metadata == (match p.metadata case None => a.metadata case Some(m) => m)
    && b.updatedAt == now && b.creditsLeft == a.creditsLeft && b.state == a.state
    && b.lastDelivered == a.lastDelivered && SameTerms(a, b, true)
  }

  /**
   * The subscriber's update succeeds exactly if the subscription is not finalized and the change in price can be held
   * from the free balance or released from the hold. It revises that subscription alone, and moves that change alone.
   */
  lemma UpdateIff(cfg: Config, s: State, id: SubId, p: UpdateParams, now: uint32)
    requires id in s.subs
    ensures var sub := s.subs[id]; var who := sub.details.subscriber;
            var r := Update(cfg, s, who, id, p, now, false);
            var more := cfg.price(if p.credits.Some? then p.credits.value else sub.credits) - cfg.price(sub.credits);
            && (r == Failure(SubscriptionNotUpdatable) <==> sub.state.Finalized?)
            && (r.Success? <==>
                  !sub.state.Finalized? && more <= At(s.balances.free, who) && -more <= At(s.balances.fees, who))
            && (r.Success? ==>
                  && id in r.value.subs && Revised(sub, r.value.subs[id], p, now)
                  && r.value.subs == s.subs[id := r.value.subs[id]] && r.value.counter == s.counter
                  && Moved(s.balances, r.value.balances, who, -more, more, 0))
            && (r.Failure? && !sub.state.Finalized? ==> r.error == CurrencyError)
  {
    hide DepositFor;
  }

  // ---------- kill ----------

  /** A successful kill removes that subscription alone, gives back fees and deposit, and moves nothing else. */
  lemma KillEffect(cfg: Config, s: State, caller: AccountId, id: SubId, noFees: bool, noDeposit: bool)
    requires Kill(cfg, s, caller, id, noFees, noDeposit).Success?
    ensures id in s.subs && s.subs[id].details.subscriber == caller && !noDeposit
    ensures var s' := Kill(cfg, s, caller, id, noFees, noDeposit).value;
            var fees: int := cfg.price(s.subs[id].creditsLeft);
            var deposit := Min(DepositFor(cfg, s.subs[id]), At(s.balances.deposit, caller));
            && s'.subs == s.subs - {id} && s'.counter == (if s.counter == 0 then 0 else s.counter - 1)
            && Moved(s.balances, s'.balances, caller, fees + deposit, -fees, -deposit)
            && s'.journal == Then(Then(s.journal, FeesReleased(id, fees)), Entry.Terminated(id))
  {
    hide DepositFor;
    assert 0 <= s.subs[id].creditsLeft && IsPrice(cfg.price);
  }

  /**
   * A termination whose deposit the currency refuses to give back stops half way: the fees are back, on record, and
   * the subscription is still stored. The kill rolls that back; the end of a block does not.
   */
  lemma HalfTermination(cfg: Config, s: State, id: SubId)
    requires id in s.subs && cfg.price(s.subs[id].creditsLeft) <= At(s.balances.fees, s.subs[id].details.subscriber)
    ensures var t, who := Terminate(cfg, s, id, false, true), s.subs[id].details.subscriber;
            var fees: int := cfg.price(s.subs[id].creditsLeft);
            && !t.done && t.state.subs == s.subs && t.state.counter == s.counter
            && Moved(s.balances, t.state.balances, who, fees, -fees, 0)
            && t.state.journal == Then(s.journal, FeesReleased(id, fees))
            && Step(cfg, s, KillCall(who, id, false, true)) == s
  {
    hide DepositFor;
    assert 0 <= s.subs[id].creditsLeft && IsPrice(cfg.price);
  }

  // ---------- a turn of the distribution ----------

  /** Active, and never served before or served at least its frequency ago, in 32-bit arithmetic. */
  predicate IsDue(sub: Subscription, now: uint32) {
    && sub.state == Active
    && match sub.lastDelivered
       case None => true
       case Some(last) =>
         now >= if last + sub.frequency <= U32_MAX then last + sub.frequency else last + sub.frequency - U32_MAX - 1
  }

  function OneLess(credits: uint64): uint64 {
    if credits == 0 then 0 else credits - 1
  }

  /** The price of the next credit is on hold, and the currency lets it be taken. */
  predicate CanPay(cfg: Config, s: State, sub: Subscription, limit: Limit) {
    var fee := cfg.price(sub.creditsLeft) - cfg.price(OneLess(sub.creditsLeft));
    && limit != Refused && fee <= At(s.balances.fees, sub.details.subscriber)
    && (limit.AtMost? ==> fee <= limit.most)
  }

  lemma CanPayIsCollects(cfg: Config, s: State, sub: Subscription, limit: Limit)
    ensures Collects(cfg, s, sub, limit) <==> CanPay(cfg, s, sub, limit)
    ensures CreditFee(cfg, sub) == cfg.price(sub.creditsLeft) - cfg.price(OneLess(sub.creditsLeft))
  {
    Solvency.CreditFeeIsDrop(cfg, sub);
  }

  /**
   * What a turn makes of a subscription. Due but not paying: paused, nothing used up. Due, paying and not sent to:
   * paused, the credit used up and the block noted. Due, paying and sent to: the same, but still active or, out of
   * credits, finalized. Otherwise a credit is used up, paid or not, and without credits it is finalized.
   */
  lemma TurnOutcome(cfg: Config, s: State, id: SubId, now: uint32, limit: Limit, unsent: bool)
    requires id in s.subs
    ensures var sub, s' := s.subs[id], DistributeOne(cfg, s, id, now, limit, unsent);
            var due, pays, left := IsDue(sub, now), CanPay(cfg, s, sub, limit), OneLess(sub.creditsLeft);
            && id in s'.subs && s'.subs == s.subs[id := s'.subs[id]] && s'.counter == s.counter
            && (due && !pays ==> s'.subs[id] == sub.(state := Paused))
            && (due && pays && unsent ==>
                  s'.subs[id] == sub.(state := Paused, creditsLeft := left, lastDelivered := Some(now)))
            && (due && pays && !unsent ==>
                  s'.subs[id] == sub.(state := if left == 0 then Finalized else Active, creditsLeft := left,
                                      lastDelivered := Some(now)))
            && (!due ==> s'.subs[id] == sub.(state := if left == 0 then Finalized else sub.state, creditsLeft := left))
  {
    hide Collects, CanPay, AfterCollection, CreditFee;
    CanPayIsCollects(cfg, s, s.subs[id], limit);
  }

  /**
   * What a turn adds to the life of a subscription: a delivery exactly if it was due, paid and was sent to, a send
   * exactly if it was due and paid, the fee paid or else a failed collection, and the fee forgone exactly if a credit
   * was used up without pay.
   */
  lemma TurnOnRecord(cfg: Config, s: State, id: SubId, now: uint32, limit: Limit, unsent: bool)
    requires id in s.subs && s.subs[id].id == id && LifeOf(s.journal, id).Some?
    ensures var sub, life := s.subs[id], LifeOf(s.journal, id).value;
            var life' := LifeOf(DistributeOne(cfg, s, id, now, limit, unsent).journal, id);
            var due, pays := IsDue(sub, now), CanPay(cfg, s, sub, limit);
            var fee := cfg.price(sub.creditsLeft) - cfg.price(OneLess(sub.creditsLeft));
            life' == Some(Life(
              life.credits,
              life.delivered + (if due && pays && !unsent then 1 else 0),
              life.paid + (if pays then fee else 0),
              life.forgone + (if !due && !pays then fee else 0),
              life.refunded,
              life.collectionFailed || !pays,
              life.sends + (if due && pays then [Send(now, sub.frequency)] else [])
            ))
  {
    hide Collects, CanPay, AfterCollection, CreditFee, LifeOf, Taken;
    var sub := s.subs[id];
    CanPayIsCollects(cfg, s, sub, limit);
    var failed := Then(s.journal, FailedCollection(cfg, s, sub, limit, 0));
    Elsewhere(s.journal, failed.latest, id);
    Elsewhere(failed, Suspended(id), id);
    Elsewhere(s.journal, FailedCollection(cfg, s, sub, limit, CreditFee(cfg, sub)), id);
    var paid := Then(s.journal, FeesCollected(sub.id, CreditFee(cfg, sub)));
    var tried := Then(paid, SendAttempted(id, now, sub.frequency));
    Elsewhere(s.journal, paid.latest, id);
    Elsewhere(paid, tried.latest, id);
    Elsewhere(tried, Suspended(id), id);
    Elsewhere(tried, Entry.Distributed(id), id);
    var sends := LifeOf(s.journal, id).value.sends;
    assert sends + [] == sends;
  }

  /**
   * What a turn moves: the least of the fee, the hold and what the currency allows, from the hold to the treasury,
   * or nothing if the currency refuses.
   */
  lemma TurnMoves(cfg: Config, s: State, id: SubId, now: uint32, limit: Limit, unsent: bool, who: AccountId)
    requires id in s.subs
    ensures var sub, b := s.subs[id], DistributeOne(cfg, s, id, now, limit, unsent).balances;
            var payer := sub.details.subscriber;
            var fee := cfg.price(sub.creditsLeft) - cfg.price(OneLess(sub.creditsLeft));
            var most := Min(fee, At(s.balances.fees, payer));
            var taken := match limit case Unlimited => most case Refused => 0 case AtMost(n) => Min(n, most);
            && At(b.fees, who) == At(s.balances.fees, who) - (if who == payer then taken else 0)
            && At(b.free, who) == At(s.balances.free, who) + (if who == cfg.treasury then taken else 0)
            && b.deposit == s.balances.deposit
  {
    hide Collects, AfterCollection, CreditFee;
    CanPayIsCollects(cfg, s, s.subs[id], limit);
    Collected(cfg, s, s.subs[id], limit, who);
  }

  // ---------- storage deposits ----------

  /** A subscription as stored, given the bytes of its id and of its immutable details. */
  function StoredBytes(sub: Subscription, id: Bytes, details: Bytes): Bytes
    requires sub.metadata.Some? ==> |sub.metadata.value| <= U32_MAX
  {
    id + details + LittleEndian(sub.creditsLeft, 8) +
    [match sub.state case Active => 0 case Paused => 1 case Finalized => 2] +
    LittleEndian(sub.createdAt, 4) + LittleEndian(sub.updatedAt, 4) + LittleEndian(sub.credits, 8) +
    LittleEndian(sub.frequency, 4) +
    (match sub.metadata case None => [0] case Some(m) => [1] + (Compact(|m|) + m)) +
    (match sub.lastDelivered case None => [0] case Some(block) => [1] + LittleEndian(block, 4))
  }

  /** The deposit is the multiplier times the number of bytes stored, at most the largest balance. */
  lemma DepositIsPerByte(cfg: Config, sub: Subscription, id: Bytes, details: Bytes)
    requires sub.metadata.Some? ==> |sub.metadata.value| <= U32_MAX
    requires |id| == 32 && |details| == sub.details.encodedSize
    ensures var size := |StoredBytes(sub, id, details)|;
            && EncodedSize(sub) == size
            && (size <= U64_MAX ==>
                  var exact := cfg.depositMultiplier * size;
                  DepositFor(cfg, sub) == if exact <= U128_MAX then exact else U128_MAX)
  {
    hide LittleEndian, Compact, Pow256;
    Powers();
    LittleEndianLength(sub.creditsLeft, 8);
    LittleEndianLength(sub.createdAt, 4);
    LittleEndianLength(sub.updatedAt, 4);
    LittleEndianLength(sub.credits, 8);
    LittleEndianLength(sub.frequency, 4);
    if sub.metadata.Some? { CompactLength(|sub.metadata.value|, 4); }
    if sub.lastDelivered.Some? { LittleEndianLength(sub.lastDelivered.value, 4); }
  }
}
