/** The life of one subscription, read off the journal: deliveries, payments and the spacing of sends. */
module Histories {
  import opened Outcomes
  import opened Saturating
  import opened Currency
  import opened Subscriptions
  import opened ManagerSpec
  import opened ManagerRuns
  import opened Lifecycle
  import Solvency

  /** One send: the block it was made in, and the frequency the subscription had then. */
  datatype Send = Send(block: uint32, frequency: uint32)

  /**
   * What has happened to a subscription since it was created. `paid` is what its successful collections took and
   * `forgone` the price of the credits it used up although the collection for them failed.
   */
  datatype Life = Life(
    credits: uint64,
    delivered: nat,
    paid: nat,
    forgone: nat,
    refunded: nat,
    collectionFailed: bool,
    sends: seq<Send>
  )

  function Observe(life: Option<Life>, e: Entry): Option<Life> {
    match e
    case Created(_, credits) => Some(Life(credits, 0, 0, 0, 0, false, []))
    case FeesCollected(_, fees) => if life.None? then None else Some(life.value.(paid := life.value.paid + fees))
    case FeesReleased(_, fees) => if life.None? then None else Some(life.value.(refunded := life.value.refunded + fees))
    case CollectionFailed(_, _, _, _, forgone) =>
      if life.None? then None
      else Some(life.value.(forgone := life.value.forgone + forgone, collectionFailed := true))
    case Distributed(_) => if life.None? then None else Some(life.value.(delivered := life.value.delivered + 1))
    case SendAttempted(_, block, frequency) =>
      if life.None? then None else Some(life.value.(sends := life.value.sends + [Send(block, frequency)]))
    case _ => life
  }

  /** The current life of the subscription with this id, or its last one if it has been removed. */
  function LifeOf(j: Journal, id: SubId): Option<Life> {
    match j
    case Empty => None
    case Then(past, e) => if e.id == id then Observe(LifeOf(past, id), e) else LifeOf(past, id)
  }

  // ---------- what holds of a life at every moment ----------

  /**
   * Deliveries never exceed the credits bought. While it is not finalized, a subscription without credits
   * still has one delivery in reserve: the credit a failed send consumed.
   */
  predicate WithinBudget(life: Life, sub: Subscription) {
    && life.delivered + sub.creditsLeft <= life.credits
    && (!sub.state.Finalized? && sub.creditsLeft == 0 ==> life.delivered + 1 <= life.credits)
  }

  /** Fees paid, fees forgone and `rest` make up the price of the credits bought; none is forgone without a failure. */
  predicate Settled(price: Price, life: Life, rest: nat) {
    && life.paid + life.forgone + rest == price(life.credits)
    && (!life.collectionFailed ==> life.forgone == 0)
  }

  /** Each send comes at least the frequency after the one before, exactly if that block number exists. */
  predicate Spaced(sends: seq<Send>) {
    forall k :: 0 < k < |sends| ==> SpacedAfter(sends[k - 1], sends[k])
  }

  predicate SpacedAfter(earlier: Send, later: Send) {
    later.block >= earlier.block + later.frequency <==> earlier.block + later.frequency <= U32_MAX
  }

  /** The subscription remembers the block of its last send. */
  predicate Remembers(sends: seq<Send>, sub: Subscription) {
    sub.lastDelivered == if sends == [] then None else Some(sends[|sends| - 1].block)
  }

  /** A stored subscription agrees with its life so far. */
  predicate Living(price: Price, life: Life, sub: Subscription) {
    && WithinBudget(life, sub) && Settled(price, life, price(sub.creditsLeft)) && life.refunded == 0
    && Spaced(life.sends) && Remembers(life.sends, sub)
  }

  /** A removed subscription got no more deliveries than it bought and all its money is accounted for. */
  predicate Ended(price: Price, life: Life) {
    life.delivered <= life.credits && Spaced(life.sends) && Settled(price, life, life.refunded)
  }

  ghost predicate Told(cfg: Config, s: State, id: SubId) {
    var life := LifeOf(s.journal, id);
    if id in s.subs then
      Sound(id, s.subs[id]) && life.Some? && Living(cfg.price, life.value, s.subs[id])
    else
      life.Some? ==> Ended(cfg.price, life.value)
  }

  // ---------- one subscription, one event ----------

  lemma NowOrWrapped(last: uint32, frequency: uint32, now: uint32)
    requires now >= WrapAdd32(last, frequency)
    ensures SpacedAfter(Send(last, 0), Send(now, frequency))
  {
    if last + frequency <= U32_MAX {
      assert WrapAdd32(last, frequency) == last + frequency;
    }
  }

  lemma SpacedExtend(sends: seq<Send>, sub: Subscription, now: uint32)
    requires Spaced(sends) && Remembers(sends, sub) && Due(sub, now)
    ensures Spaced(sends + [Send(now, sub.frequency)])
  {
    var more := sends + [Send(now, sub.frequency)];
    forall k | 0 < k < |more| ensures SpacedAfter(more[k - 1], more[k]) {
      if k < |sends| {
        assert SpacedAfter(sends[k - 1], sends[k]);
      } else {
        NowOrWrapped(sends[k - 1].block, sub.frequency, now);
      }
    }
  }

  function Paying(life: Life, fees: nat): Life {
    life.(paid := life.paid + fees)
  }

  function Sending(life: Life, now: uint32, frequency: uint32): Life {
    life.(sends := life.sends + [Send(now, frequency)])
  }

  /** A due subscription that pays for its credit stays within its budget, sent or not. */
  lemma LivingServed(cfg: Config, life: Life, sub: Subscription, now: uint32)
    requires Living(cfg.price, life, sub) && Due(sub, now)
    ensures var tried := Sending(Paying(life, CreditFee(cfg, sub)), now, sub.frequency);
            && Living(cfg.price, tried, Served(sub, now).(state := Paused))
            && Living(cfg.price, tried.(delivered := tried.delivered + 1), Settle(Served(sub, now)))
  {
    hide CreditFee, Spaced;
    Solvency.CreditFeeIsDrop(cfg, sub);
    SpacedExtend(life.sends, sub, now);
  }

  lemma LivingIdle(cfg: Config, life: Life, sub: Subscription)
    requires Living(cfg.price, life, sub)
    ensures var sub' := Settle(sub.(creditsLeft := SatSub(sub.creditsLeft, 1)));
            && Living(cfg.price, Paying(life, CreditFee(cfg, sub)), sub')
            && Living(cfg.price, life.(forgone := life.forgone + CreditFee(cfg, sub), collectionFailed := true), sub')
  {
    hide CreditFee, Spaced;
    Solvency.CreditFeeIsDrop(cfg, sub);
  }

  // ---------- every step tells the story right ----------

  /** Entries about another subscription do not matter. */
  lemma Elsewhere(j: Journal, e: Entry, id: SubId)
    ensures e.id != id ==> LifeOf(Then(j, e), id) == LifeOf(j, id)
    ensures e.id == id ==> LifeOf(Then(j, e), id) == Observe(LifeOf(j, id), e)
  {
  }

  lemma CreateTold(cfg: Config, s: State, caller: AccountId, p: CreateParams, generated: SubId, now: uint32,
                   noFees: bool, noDeposit: bool, id: SubId)
    requires Told(cfg, s, id)
    ensures Told(cfg, Commit(s, Create(cfg, s, caller, p, generated, now, noFees, noDeposit)), id)
  {
    hide DepositFor, Hold;
    var sub := NewSubscription(caller, p, generated, now);
    Elsewhere(s.journal, Created(sub.id, p.credits), id);
  }

  lemma UpdateTold(cfg: Config, s: State, caller: AccountId, target: SubId, p: UpdateParams, now: uint32,
                   refused: bool, id: SubId)
    requires Told(cfg, s, id)
    ensures Told(cfg, Commit(s, Update(cfg, s, caller, target, p, now, refused)), id)
  {
    hide ManageDiffFees, Spaced;
  }

  lemma TerminateTold(cfg: Config, s: State, target: SubId, noFees: bool, noDeposit: bool, id: SubId)
    requires Told(cfg, s, id) && target in s.subs
    requires !Terminate(cfg, s, target, noFees, noDeposit).done ==> s.subs[target].creditsLeft == 0
    ensures Told(cfg, Terminate(cfg, s, target, noFees, noDeposit).state, id)
  {
    hide ManageDiffFees, Release, DepositFor, Spaced;
    var released := FeesReleased(target, cfg.price(s.subs[target].creditsLeft));
    Elsewhere(s.journal, released, id);
    Elsewhere(Then(s.journal, released), Entry.Terminated(target), id);
    assert IsPrice(cfg.price);
  }

  lemma DeliverTold(cfg: Config, s: State, target: SubId, now: uint32, limit: Limit, unsent: bool, id: SubId)
    requires Told(cfg, s, id) && target in s.subs && Due(s.subs[target], now) && Sound(target, s.subs[target])
    ensures Told(cfg, Deliver(cfg, s, target, now, limit, unsent), id)
  {
    hide Told, Deliver, Collects;
    if Collects(cfg, s, s.subs[target], limit) {
      ServedTold(cfg, s, target, now, limit, unsent, id);
    } else {
      UnpaidTold(cfg, s, target, now, limit, unsent, id);
    }
  }

  lemma UnpaidTold(cfg: Config, s: State, target: SubId, now: uint32, limit: Limit, unsent: bool, id: SubId)
    requires Told(cfg, s, id) && target in s.subs && Due(s.subs[target], now) && Sound(target, s.subs[target])
    requires !Collects(cfg, s, s.subs[target], limit)
    ensures Told(cfg, Deliver(cfg, s, target, now, limit, unsent), id)
  {
    hide CreditFee, Spaced, AfterCollection, Collects;
    var failed := Then(s.journal, FailedCollection(cfg, s, s.subs[target], limit, 0));
    Elsewhere(s.journal, failed.latest, id);
    Elsewhere(failed, Suspended(target), id);
  }

  lemma ServedTold(cfg: Config, s: State, target: SubId, now: uint32, limit: Limit, unsent: bool, id: SubId)
    requires Told(cfg, s, id) && target in s.subs && Due(s.subs[target], now) && Sound(target, s.subs[target])
    requires Collects(cfg, s, s.subs[target], limit)
    ensures Told(cfg, Deliver(cfg, s, target, now, limit, unsent), id)
  {
    hide CreditFee, Living, Ended, AfterCollection, Collects, LifeOf, Due;
    var sub := s.subs[target];
    var paid := Then(s.journal, FeesCollected(sub.id, CreditFee(cfg, sub)));
    var tried := Then(paid, SendAttempted(target, now, sub.frequency));
    Elsewhere(s.journal, paid.latest, id);
    Elsewhere(paid, tried.latest, id);
    Elsewhere(tried, Suspended(target), id);
    Elsewhere(tried, Entry.Distributed(target), id);
    if id == target {
      LivingServed(cfg, LifeOf(s.journal, id).value, sub, now);
    }
  }

  lemma IdleTold(cfg: Config, s: State, target: SubId, limit: Limit, id: SubId)
    requires Told(cfg, s, id) && target in s.subs && Sound(target, s.subs[target])
    ensures Told(cfg, Idle(cfg, s, target, limit), id)
  {
    hide CreditFee, Living, Ended, AfterCollection, Collects, LifeOf, Taken;
    var sub := s.subs[target];
    Elsewhere(s.journal, FeesCollected(sub.id, CreditFee(cfg, sub)), id);
    Elsewhere(s.journal, FailedCollection(cfg, s, sub, limit, CreditFee(cfg, sub)), id);
    if id == target {
      LivingIdle(cfg, LifeOf(s.journal, id).value, sub);
    }
  }

  lemma {:induction false} DistributeTold(cfg: Config, s: State, order: seq<SubId>, now: uint32,
                                          limits: map<SubId, Limit>, unsent: set<SubId>, id: SubId)
    requires Told(cfg, s, id) && Orderly(cfg, s) && forall k :: k in order ==> k in s.subs
    ensures Told(cfg, Distribute(cfg, s, order, now, limits, unsent), id)
  {
    hide Told, Deliver, Idle;
    if order != [] {
      var target, rest := order[|order| - 1], order[..|order| - 1];
      DistributeTold(cfg, s, rest, now, limits, unsent, id);
      DistributeOrderly(cfg, s, rest, now, limits, unsent);
      var before := Distribute(cfg, s, rest, now, limits, unsent);
      assert Sound(target, before.subs[target]);
      if Due(before.subs[target], now) {
        DeliverTold(cfg, before, target, now, LimitFor(limits, target), target in unsent, id);
      } else {
        IdleTold(cfg, before, target, LimitFor(limits, target), id);
      }
    }
  }

  lemma {:induction false} ReapTold(cfg: Config, s: State, order: seq<SubId>, stuck: set<SubId>, id: SubId)
    requires Told(cfg, s, id) && Orderly(cfg, s)
    ensures Told(cfg, Reap(cfg, s, order, stuck).state, id)
  {
    hide Told, Terminate;
    if order != [] {
      var target, rest := order[|order| - 1], order[..|order| - 1];
      ReapTold(cfg, s, rest, stuck, id);
      ReapOrderly(cfg, s, rest, stuck);
      var r := Reap(cfg, s, rest, stuck);
      if FinalizedIn(r.state, target) {
        assert Sound(target, r.state.subs[target]);
        TerminateTold(cfg, r.state, target, target in stuck, target in stuck, id);
      }
    }
  }

  lemma StepTold(cfg: Config, s: State, c: Call, id: SubId)
    requires Told(cfg, s, id) && Orderly(cfg, s) && Enabled(s, c)
    ensures Told(cfg, Step(cfg, s, c), id)
  {
    hide Create, Update, Terminate, Distribute, Reap, Spaced;
    match c
    case CreateCall(caller, p, generated, now, noFees, noDeposit) =>
      CreateTold(cfg, s, caller, p, generated, now, noFees, noDeposit, id);
    case UpdateCall(caller, target, changes, now, refused) =>
      UpdateTold(cfg, s, caller, target, changes, now, refused, id);
    case KillCall(_, target, noFees, noDeposit) =>
      if target in s.subs && Terminate(cfg, s, target, noFees, noDeposit).done {
        TerminateTold(cfg, s, target, noFees, noDeposit, id);
      }
    case Dispatch(now, order, limits, unsent) => DistributeTold(cfg, s, order, now, limits, unsent, id);
    case EndBlock(order, stuck) => ReapTold(cfg, s, order, stuck, id);
    case _ =>
  }

  lemma {:induction false} RunTold(cfg: Config, s: State, calls: seq<Call>, id: SubId)
    requires Told(cfg, s, id) && Orderly(cfg, s) && ValidRun(cfg, s, calls)
    ensures Told(cfg, Run(cfg, s, calls), id)
    decreases |calls|
  {
    hide Told, Orderly, Step, Enabled;
    if calls != [] {
      StepTold(cfg, s, calls[0], id);
      StepOrderly(cfg, s, calls[0]);
      RunTold(cfg, Step(cfg, s, calls[0]), calls[1..], id);
    }
  }

  // ---------- what every run guarantees ----------

  lemma AlwaysTold(cfg: Config, s: State, calls: seq<Call>, id: SubId)
    requires Genesis(s) && ValidRun(cfg, s, calls)
    ensures Told(cfg, Run(cfg, s, calls), id)
  {
    RunTold(cfg, s, calls, id);
  }

  /**
   * Delivery budget: a subscription never gets more deliveries than the credits it was created with,
   * through failed sends, reactivations without credits and any updates.
   */
  lemma DeliveryBudget(cfg: Config, s: State, calls: seq<Call>, id: SubId)
    requires Genesis(s) && ValidRun(cfg, s, calls)
    ensures var life := LifeOf(Run(cfg, s, calls).journal, id);
            life.Some? ==> life.value.delivered <= life.value.credits
  {
    AlwaysTold(cfg, s, calls, id);
  }

  /**
   * Lifetime conservation: what a subscription has paid to the treasury, plus what failed collections let go, plus
   * what was refunded when it ended or the price of its credits left while it lives, is what it was created for.
   * Unless a collection failed nothing was let go.
   */
  lemma LifetimeConservation(cfg: Config, s: State, calls: seq<Call>, id: SubId)
    requires Genesis(s) && ValidRun(cfg, s, calls)
    ensures var s' := Run(cfg, s, calls); var life := LifeOf(s'.journal, id);
            life.Some? ==>
              && cfg.price(life.value.credits) ==
                 life.value.paid + life.value.forgone +
                 (if id in s'.subs then cfg.price(s'.subs[id].creditsLeft) else life.value.refunded)
              && (!life.value.collectionFailed ==> life.value.forgone == 0)
  {
    AlwaysTold(cfg, s, calls, id);
  }

  /**
   * Spacing: two sends in a row are the later one's frequency apart, across pauses, updates and failed sends,
   * exactly when the due block fits the block number type; past that the addition wraps and they are not.
   */
  lemma SendsAreSpaced(cfg: Config, s: State, calls: seq<Call>, id: SubId, k: nat)
    requires Genesis(s) && ValidRun(cfg, s, calls)
    requires var life := LifeOf(Run(cfg, s, calls).journal, id); life.Some? && 0 < k < |life.value.sends|
    ensures var sends := LifeOf(Run(cfg, s, calls).journal, id).value.sends;
            sends[k].block >= sends[k - 1].block + sends[k].frequency <==>
            sends[k - 1].block + sends[k].frequency <= U32_MAX
  {
    AlwaysTold(cfg, s, calls, id);
    var sends := LifeOf(Run(cfg, s, calls).journal, id).value.sends;
    assert SpacedAfter(sends[k - 1], sends[k]);
  }

  // ---------- a send that comes early ----------

  /** A turn at which a subscription is due and pays puts a send into its life. */
  lemma DueTurnSends(cfg: Config, s: State, id: SubId, now: uint32)
    requires id in s.subs && s.subs[id].id == id && Due(s.subs[id], now) && Collects(cfg, s, s.subs[id], Unlimited)
    requires s.subs[id].creditsLeft >= 1 && LifeOf(s.journal, id).Some?
    ensures var s', sub := Distribute(cfg, s, [id], now, map[], {}), s.subs[id];
            && s'.subs == s.subs[id := Settle(Served(sub, now))] && LifeOf(s'.journal, id).Some?
            && LifeOf(s'.journal, id).value.sends == LifeOf(s.journal, id).value.sends + [Send(now, sub.frequency)]
            && s'.balances == AfterCollection(cfg, s, sub, Unlimited)
  {
    hide CreditFee, Collects, AfterCollection;
    var sub := s.subs[id];
    var paid := Then(s.journal, FeesCollected(sub.id, CreditFee(cfg, sub)));
    var tried := Then(paid, SendAttempted(id, now, sub.frequency));
    Elsewhere(s.journal, paid.latest, id);
    Elsewhere(paid, tried.latest, id);
    Elsewhere(tried, Entry.Distributed(id), id);
    assert [id][..0] == [];
    assert Distribute(cfg, s, [], now, map[], {}) == s;
  }

  lemma FirstCreditIsHeld(cfg: Config, s: State, sub: Subscription)
    requires cfg.price(sub.creditsLeft) <= At(s.balances.fees, sub.details.subscriber)
    ensures Collects(cfg, s, sub, Unlimited)
    ensures At(AfterCollection(cfg, s, sub, Unlimited).fees, sub.details.subscriber) >=
            cfg.price(SatSub(sub.creditsLeft, 1))
  {
    hide CreditFee;
    Solvency.CreditFeeIsDrop(cfg, sub);
  }

  /**
   * An early send: created with the largest frequency there is and two credits or more, dispatched to at some block
   * and at the next. The due block number wraps, so the second send follows after one block.
   */
  lemma EarlySend(cfg: Config, s: State, caller: AccountId, p: CreateParams, id: SubId, now: uint32)
    requires Genesis(s) && Create(cfg, s, caller, p, id, now, false, false).Success? && p.subId == Some(id)
    requires p.frequency == U32_MAX && p.credits >= 2 && 1 <= now < U32_MAX
    ensures var calls := [CreateCall(caller, p, id, now, false, false), Dispatch(now, [id], map[], {}),
                          Dispatch(now + 1, [id], map[], {})];
            && ValidRun(cfg, s, calls) && LifeOf(Run(cfg, s, calls).journal, id).Some?
            && LifeOf(Run(cfg, s, calls).journal, id).value.sends == [Send(now, U32_MAX), Send(now + 1, U32_MAX)]
  {
    hide Create, Distribute, Step, Run, ValidRun;
    var calls := [CreateCall(caller, p, id, now, false, false), Dispatch(now, [id], map[], {}),
                  Dispatch(now + 1, [id], map[], {})];
    var s1 := Create(cfg, s, caller, p, id, now, false, false).value;
    TwoSends(cfg, s, caller, p, id, now);
    var s2 := Distribute(cfg, s1, [id], now, map[], {});
    assert Lists([id], {id});
    CreateStep(cfg, s, caller, p, id, now);
    DispatchStep(cfg, s1, now, [id], map[], {});
    DispatchStep(cfg, s2, now + 1, [id], map[], {});
    ThreeCalls(cfg, s, calls, s1, s2);
  }

  lemma TwoSends(cfg: Config, s: State, caller: AccountId, p: CreateParams, id: SubId, now: uint32)
    requires Genesis(s) && Create(cfg, s, caller, p, id, now, false, false).Success? && p.subId == Some(id)
    requires p.frequency == U32_MAX && p.credits >= 2 && 1 <= now < U32_MAX
    ensures var s1 := Create(cfg, s, caller, p, id, now, false, false).value;
            && s1.subs.Keys == {id}
            && var s2 := Distribute(cfg, s1, [id], now, map[], {});
               && s2.subs.Keys == {id}
               && var life := LifeOf(Distribute(cfg, s2, [id], now + 1, map[], {}).journal, id);
                  life.Some? && life.value.sends == [Send(now, U32_MAX), Send(now + 1, U32_MAX)]
  {
    hide Collects, AfterCollection, CreditFee, DepositFor, Distribute;
    var s1 := Create(cfg, s, caller, p, id, now, false, false).value;
    Elsewhere(s.journal, Created(id, p.credits), id);
    FirstCreditIsHeld(cfg, s1, s1.subs[id]);
    DueTurnSends(cfg, s1, id, now);
    var s2 := Distribute(cfg, s1, [id], now, map[], {});
    FirstCreditIsHeld(cfg, s2, s2.subs[id]);
    assert WrapAdd32(now, U32_MAX) == now - 1;
    DueTurnSends(cfg, s2, id, now + 1);
  }

  lemma ThreeCalls(cfg: Config, s: State, calls: seq<Call>, s1: State, s2: State)
    requires |calls| == 3 && Enabled(s, calls[0]) && Step(cfg, s, calls[0]) == s1
    requires Enabled(s1, calls[1]) && Step(cfg, s1, calls[1]) == s2 && Enabled(s2, calls[2])
    ensures ValidRun(cfg, s, calls) && Run(cfg, s, calls) == Step(cfg, s2, calls[2])
  {
    hide Step, Enabled;
    var s3 := Step(cfg, s2, calls[2]);
    assert calls[1..][1..] == [calls[2]] && [calls[2]][1..] == [];
    assert ValidRun(cfg, s3, []) && Run(cfg, s3, []) == s3;
    assert ValidRun(cfg, s2, [calls[2]]) && Run(cfg, s2, [calls[2]]) == s3;
    assert ValidRun(cfg, s1, calls[1..]) && Run(cfg, s1, calls[1..]) == s3;
  }
}
