/** A quote buys enough: the credits quoted for a number of pulses last for that many pulses. */
module Quotes {
  import opened Saturating
  import opened Currency
  import opened Subscriptions
  import opened ManagerSpec
  import opened ManagerRuns
  import opened Lifecycle
  import opened Solvency
  import opened Histories

  /** `calculate_credits`, with one credit per delivery and one per idle block. */
  function CalculateCredits(frequency: uint32, lifetime: uint32): uint64 {
    SatMul(lifetime, SatAdd(SatMul(frequency, 1), 1))
  }

  /** With block numbers of 32 bits the credits of a quote never saturate. */
  lemma QuoteIsExact(frequency: uint32, lifetime: uint32)
    ensures CalculateCredits(frequency, lifetime) == lifetime * (frequency + 1)
  {
    var most: nat := U32_MAX;
    assert lifetime * (frequency + 1) <= most * (frequency + 1) <= most * (most + 1);
  }

  // ---------- counting turns ----------

  /** The longest a subscription of this frequency can wait, in turns, from one delivery to the next. */
  function Period(frequency: uint32): nat {
    if frequency == 0 then 1 else frequency
  }

  /**
   * The subscription is active, and the turns it has used are paid for by its deliveries: a full period for
   * each but the last, and since the last at most the blocks gone by, which are less than a period.
   */
  predicate OnTrack(sub: Subscription, credits: nat, delivered: nat, frequency: uint32, after: int) {
    && sub.state.Active? && sub.frequency == frequency && 1 <= sub.creditsLeft <= credits
    && match sub.lastDelivered
       case None => delivered == 0 && sub.creditsLeft == credits
       case Some(last) =>
         && delivered >= 1 && last <= after < last + Period(frequency)
         && credits - sub.creditsLeft <= (delivered - 1) * Period(frequency) + 1 + (after - last)
  }

  /** The subscription after a turn in which everything succeeds. */
  function Turn(sub: Subscription, now: uint32): Subscription {
    if Due(sub, now) then Settle(Served(sub, now)) else Settle(sub.(creditsLeft := SatSub(sub.creditsLeft, 1)))
  }

  function Gain(sub: Subscription, now: uint32): nat {
    if Due(sub, now) then 1 else 0
  }

  /** Not being due means less than a period has passed, wrapped addition or not. */
  lemma NotDueYet(sub: Subscription, now: uint32)
    requires sub.state.Active? && !Due(sub, now) && sub.lastDelivered.Some? && sub.lastDelivered.value < now
    ensures now < sub.lastDelivered.value + Period(sub.frequency)
  {
    var last := sub.lastDelivered.value;
    if last + sub.frequency <= U32_MAX {
      assert WrapAdd32(last, sub.frequency) == last + sub.frequency;
    }
  }

  lemma TurnUsed(credits: nat, delivered: nat, frequency: uint32, sub: Subscription, after: int, now: uint32)
    requires OnTrack(sub, credits, delivered, frequency, after) && after < now
    ensures credits - (sub.creditsLeft - 1) <= (delivered + Gain(sub, now)) * Period(frequency)
    ensures sub.creditsLeft > 1 ==> OnTrack(Turn(sub, now), credits, delivered + Gain(sub, now), frequency, now)
  {
    var n := Period(frequency);
    if Due(sub, now) {
      assert (delivered + 1) * n == delivered * n + n;
      if delivered >= 1 { assert (delivered - 1) * n + n == delivered * n; }
    } else {
      NotDueYet(sub, now);
      assert (delivered - 1) * n + n == delivered * n;
    }
  }

  lemma FewerCostLess(a: nat, b: nat, period: nat, k: nat)
    requires period <= k && 0 < k
    ensures a < b ==> a * period < b * k
  {
    assert a * period <= a * k;
  }

  /** When the quoted credits run out, at least the quoted number of pulses has been delivered. */
  lemma OutOfCredits(lifetime: nat, frequency: uint32, delivered: nat)
    requires lifetime * (frequency + 1) <= delivered * Period(frequency)
    ensures delivered >= lifetime
  {
    FewerCostLess(delivered, lifetime, Period(frequency), frequency + 1);
  }

  // ---------- one dispatch ----------

  /** A turn whose collection and send succeed. */
  lemma TurnTaken(cfg: Config, s: State, id: SubId, now: uint32)
    requires id in s.subs && Sound(id, s.subs[id]) && LifeOf(s.journal, id).Some?
    requires Collects(cfg, s, s.subs[id], Unlimited)
    ensures var s' := DistributeOne(cfg, s, id, now, Unlimited, false);
            var life, life' := LifeOf(s.journal, id), LifeOf(s'.journal, id);
            && s'.subs == s.subs[id := Turn(s.subs[id], now)] && life'.Some?
            && life'.value.credits == life.value.credits
            && life'.value.collectionFailed == life.value.collectionFailed
            && life'.value.delivered == life.value.delivered + Gain(s.subs[id], now)
  {
    hide CreditFee, Collects, AfterCollection;
    var sub := s.subs[id];
    var paid := Then(s.journal, FeesCollected(sub.id, CreditFee(cfg, sub)));
    var tried := Then(paid, SendAttempted(id, now, sub.frequency));
    Elsewhere(s.journal, paid.latest, id);
    Elsewhere(paid, tried.latest, id);
    Elsewhere(tried, Entry.Distributed(id), id);
  }

  /** A collection from the subscription has failed. */
  predicate Failed(s: State, id: SubId) {
    LifeOf(s.journal, id).Some? && LifeOf(s.journal, id).value.collectionFailed
  }

  /** A turn whose collection fails goes on record. */
  lemma TurnMissed(cfg: Config, s: State, id: SubId, now: uint32)
    requires id in s.subs && Sound(id, s.subs[id]) && LifeOf(s.journal, id).Some?
    requires !Collects(cfg, s, s.subs[id], Unlimited)
    ensures Failed(DistributeOne(cfg, s, id, now, Unlimited, false), id)
  {
    hide CreditFee, Collects, AfterCollection;
    var sub := s.subs[id];
    var failed := Then(s.journal, FailedCollection(cfg, s, sub, Unlimited, 0));
    Elsewhere(s.journal, failed.latest, id);
    Elsewhere(failed, Suspended(id), id);
    Elsewhere(s.journal, FailedCollection(cfg, s, sub, Unlimited, CreditFee(cfg, sub)), id);
  }

  /** Another subscription's turn changes nothing for this one. */
  lemma OthersTurn(cfg: Config, s: State, target: SubId, now: uint32, limit: Limit, unsent: bool, id: SubId)
    requires target in s.subs && Sound(target, s.subs[target]) && target != id
    ensures var s' := DistributeOne(cfg, s, target, now, limit, unsent);
            && LifeOf(s'.journal, id) == LifeOf(s.journal, id)
            && (id in s.subs ==> id in s'.subs && s'.subs[id] == s.subs[id])
  {
    hide CreditFee, Collects, AfterCollection;
    var sub := s.subs[target];
    var failed := Then(s.journal, FailedCollection(cfg, s, sub, limit, 0));
    Elsewhere(s.journal, failed.latest, id);
    Elsewhere(failed, Suspended(target), id);
    var paid := Then(s.journal, FeesCollected(sub.id, CreditFee(cfg, sub)));
    var tried := Then(paid, SendAttempted(target, now, sub.frequency));
    Elsewhere(s.journal, paid.latest, id);
    Elsewhere(paid, tried.latest, id);
    Elsewhere(tried, Suspended(target), id);
    Elsewhere(tried, Entry.Distributed(target), id);
  }

  /** Before its turn a subscription and its life are as they were; after it, one turn further. */
  ghost predicate TookTurn(s: State, s': State, id: SubId, now: uint32, taken: bool)
    requires id in s.subs && id in s'.subs
  {
    var life, life' := LifeOf(s.journal, id), LifeOf(s'.journal, id);
    if !taken then life' == life && s'.subs[id] == s.subs[id]
    else
      && life.Some? && life'.Some? && life'.value.credits == life.value.credits
      && life'.value.collectionFailed == life.value.collectionFailed
      && life'.value.delivered == life.value.delivered + Gain(s.subs[id], now)
      && s'.subs[id] == Turn(s.subs[id], now)
  }

  /** The account's books balance, and nothing has drained its hold up to `s'`. */
  ghost predicate Covered(cfg: Config, s: State, s': State, who: AccountId) {
    Balanced(cfg, s, who) && NeverDrained(s'.journal, who)
  }

  /** A hold never drained covers every collection. */
  lemma CoveredCollects(cfg: Config, s: State, id: SubId)
    requires id in s.subs && Covered(cfg, s, s, s.subs[id].details.subscriber)
    ensures Collects(cfg, s, s.subs[id], Unlimited)
  {
    hide FeesDue;
    ShortOnlyBelowDue(cfg, s, id);
  }

  lemma {:induction false} DrainedBeforeDispatch(cfg: Config, s: State, order: seq<SubId>, now: uint32,
                                                 limits: map<SubId, Limit>, unsent: set<SubId>, who: AccountId)
    requires forall k :: k in order ==> k in s.subs
    ensures NeverDrained(Distribute(cfg, s, order, now, limits, unsent).journal, who) ==> NeverDrained(s.journal, who)
  {
    hide Collects, CreditFee, AfterCollection;
    if order != [] {
      var id, rest := order[|order| - 1], order[..|order| - 1];
      DrainedBeforeDispatch(cfg, s, rest, now, limits, unsent, who);
      var before := Distribute(cfg, s, rest, now, limits, unsent);
      DrainedBeforeTurn(cfg, before, id, now, LimitFor(limits, id), id in unsent, who);
    }
  }

  lemma DrainedBeforeTurn(cfg: Config, s: State, id: SubId, now: uint32, limit: Limit, unsent: bool, who: AccountId)
    requires id in s.subs
    ensures NeverDrained(DistributeOne(cfg, s, id, now, limit, unsent).journal, who) ==> NeverDrained(s.journal, who)
  {
    hide Collects, CreditFee, AfterCollection, Taken;
    var sub := s.subs[id];
    var failed := Then(s.journal, FailedCollection(cfg, s, sub, limit, 0));
    assert NeverDrained(failed, who) ==> NeverDrained(s.journal, who);
    Neutral(failed, Suspended(id), who);
    var paid := Then(s.journal, FeesCollected(sub.id, CreditFee(cfg, sub)));
    var tried := Then(paid, SendAttempted(id, now, sub.frequency));
    Neutral(s.journal, paid.latest, who);
    Neutral(paid, tried.latest, who);
    Neutral(tried, Suspended(id), who);
    Neutral(tried, Entry.Distributed(id), who);
  }

  /**
   * A dispatch gives each subscription exactly one turn. Unless its send or payment is refused the turn succeeds
   * or a failed collection goes on record, and an account whose hold is not drained is never short.
   */
  lemma {:induction false} DispatchGivesTurn(cfg: Config, s: State, order: seq<SubId>, now: uint32,
                                             limits: map<SubId, Limit>, unsent: set<SubId>, id: SubId)
    requires Orderly(cfg, s) && id in s.subs && LifeOf(s.journal, id).Some?
    requires LimitFor(limits, id).Unlimited? && id !in unsent
    requires forall k :: k in order ==> k in s.subs
    requires forall i, j :: 0 <= i < j < |order| ==> order[i] != order[j]
    ensures var s' := Distribute(cfg, s, order, now, limits, unsent);
            && (Failed(s', id) || TookTurn(s, s', id, now, id in order))
            && (Covered(cfg, s, s', s.subs[id].details.subscriber) ==> TookTurn(s, s', id, now, id in order))
  {
    hide Orderly, Covered, DistributeOne, Sound, TookTurn, Failed, LifeOf;
    if order == [] {
      SameTurn(s, id, now);
    } else {
      var target, rest := order[|order| - 1], order[..|order| - 1];
      DispatchGivesTurn(cfg, s, rest, now, limits, unsent, id);
      DistributeOrderly(cfg, s, rest, now, limits, unsent);
      var before := Distribute(cfg, s, rest, now, limits, unsent);
      assert order == rest + [target] && target !in rest;
      var limit, fails, who := LimitFor(limits, target), target in unsent, s.subs[id].details.subscriber;
      CoveredBefore(cfg, s, before, target, now, limit, fails, who);
      if target == id {
        DistributeKeepsCover(cfg, s, rest, now, limits, unsent, who);
        OwnTurn(cfg, s, before, id, now);
      } else {
        OthersPass(cfg, s, before, target, now, limit, fails, id, id in rest);
      }
    }
  }

  lemma SameTurn(s: State, id: SubId, now: uint32)
    requires id in s.subs
    ensures TookTurn(s, s, id, now, false)
  {
  }

  lemma DistributeKeepsCover(cfg: Config, s: State, order: seq<SubId>, now: uint32,
                             limits: map<SubId, Limit>, unsent: set<SubId>, who: AccountId)
    requires forall k :: k in order ==> k in s.subs
    ensures var s' := Distribute(cfg, s, order, now, limits, unsent);
            Covered(cfg, s, s', who) ==> Covered(cfg, s', s', who)
  {
    hide Balanced, NeverDrained, Distribute;
    if Balanced(cfg, s, who) { DistributeBalanced(cfg, s, order, now, limits, unsent, who); }
  }

  lemma CoveredBefore(cfg: Config, s: State, before: State, id: SubId, now: uint32, limit: Limit, unsent: bool,
                      who: AccountId)
    requires id in before.subs
    ensures Covered(cfg, s, DistributeOne(cfg, before, id, now, limit, unsent), who) ==> Covered(cfg, s, before, who)
  {
    hide Balanced, NeverDrained, DistributeOne;
    DrainedBeforeTurn(cfg, before, id, now, limit, unsent, who);
  }

  lemma OwnTurn(cfg: Config, s: State, before: State, id: SubId, now: uint32)
    requires id in s.subs && id in before.subs && LifeOf(s.journal, id).Some? && Orderly(cfg, before)
    requires Failed(before, id) || TookTurn(s, before, id, now, false)
    ensures var after := DistributeOne(cfg, before, id, now, Unlimited, false);
            && id in after.subs && (Failed(after, id) || TookTurn(s, after, id, now, true))
            && (Covered(cfg, before, before, s.subs[id].details.subscriber) && TookTurn(s, before, id, now, false) ==>
                  TookTurn(s, after, id, now, true))
  {
    hide Orderly, Covered, DistributeOne, Collects, Sound, LifeOf, Turn, Gain;
    SoundAt(cfg, before, id);
    if TookTurn(s, before, id, now, false) && Covered(cfg, before, before, s.subs[id].details.subscriber) {
      CoveredCollects(cfg, before, id);
    }
    KeysStay(cfg, before, id, now, Unlimited, false);
    if Collects(cfg, before, before.subs[id], Unlimited) {
      TurnTaken(cfg, before, id, now);
    } else {
      TurnMissed(cfg, before, id, now);
    }
  }

  lemma KeysStay(cfg: Config, s: State, id: SubId, now: uint32, limit: Limit, unsent: bool)
    requires id in s.subs
    ensures DistributeOne(cfg, s, id, now, limit, unsent).subs.Keys == s.subs.Keys
  {
    hide Collects, AfterCollection, CreditFee;
  }

  lemma OthersPass(cfg: Config, s: State, before: State, target: SubId, now: uint32, limit: Limit, unsent: bool,
                   id: SubId, taken: bool)
    requires id in s.subs && id in before.subs && target in before.subs && target != id && Orderly(cfg, before)
    requires Failed(before, id) || TookTurn(s, before, id, now, taken)
    ensures var after := DistributeOne(cfg, before, target, now, limit, unsent);
            && id in after.subs && (Failed(after, id) || TookTurn(s, after, id, now, taken))
            && (TookTurn(s, before, id, now, taken) ==> TookTurn(s, after, id, now, taken))
  {
    hide Orderly, DistributeOne, Sound, LifeOf, Turn, Gain;
    SoundAt(cfg, before, target);
    OthersTurn(cfg, before, target, now, limit, unsent, id);
  }

  lemma SoundAt(cfg: Config, s: State, id: SubId)
    requires Orderly(cfg, s) && id in s.subs
    ensures Sound(id, s.subs[id])
  {
  }

  // ---------- runs ----------

  lemma {:induction false} ReapKeepsUpdates(cfg: Config, s: State, order: seq<SubId>, stuck: set<SubId>, who: AccountId)
    ensures NeverDrained(Reap(cfg, s, order, stuck).state.journal, who) == NeverDrained(s.journal, who)
  {
    hide Terminate;
    if order != [] {
      var id, rest := order[|order| - 1], order[..|order| - 1];
      ReapKeepsUpdates(cfg, s, rest, stuck, who);
      var r := Reap(cfg, s, rest, stuck).state;
      if id in r.subs { TerminateKeepsUpdates(cfg, r, id, id in stuck, id in stuck, who); }
    }
  }

  lemma TerminateKeepsUpdates(cfg: Config, s: State, id: SubId, noFees: bool, noDeposit: bool, who: AccountId)
    requires id in s.subs
    ensures NeverDrained(Terminate(cfg, s, id, noFees, noDeposit).state.journal, who) == NeverDrained(s.journal, who)
  {
    hide ManageDiffFees, Release, DepositFor;
    var released := FeesReleased(id, cfg.price(s.subs[id].creditsLeft));
    Neutral(s.journal, released, who);
    Neutral(Then(s.journal, released), Entry.Terminated(id), who);
  }

  /** If nothing has drained the hold up to now, nothing had before. */
  lemma NotDrainedEarlier(cfg: Config, s: State, c: Call, who: AccountId)
    requires Enabled(s, c) && NeverDrained(Step(cfg, s, c).journal, who)
    ensures NeverDrained(s.journal, who)
  {
    hide ManageDiffFees, Terminate, Distribute, Reap, DepositFor, Hold;
    match c
    case KillCall(_, target, noFees, noDeposit) =>
      if target in s.subs { TerminateKeepsUpdates(cfg, s, target, noFees, noDeposit, who); }
    case Dispatch(now, order, limits, unsent) => DrainedBeforeDispatch(cfg, s, order, now, limits, unsent, who);
    case EndBlock(order, stuck) => ReapKeepsUpdates(cfg, s, order, stuck, who);
    case _ =>
  }

  lemma {:induction false} NotDrainedBefore(cfg: Config, s: State, calls: seq<Call>, who: AccountId)
    requires ValidRun(cfg, s, calls) && NeverDrained(Run(cfg, s, calls).journal, who)
    ensures NeverDrained(s.journal, who)
    decreases |calls|
  {
    hide Step, Enabled;
    if calls != [] {
      NotDrainedBefore(cfg, Step(cfg, s, calls[0]), calls[1..], who);
      NotDrainedEarlier(cfg, s, calls[0], who);
    }
  }

  /** The call is about other subscriptions, or is a dispatch in which this one pays and is sent to. */
  predicate LeavesAlone(c: Call, id: SubId) {
    match c
    case CreateCall(caller, p, generated, now, _, _) => NewSubscription(caller, p, generated, now).id != id
    case PauseCall(_, target) => target != id
    case ReactivateCall(_, target) => target != id
    case UpdateCall(_, target, _, _, _) => target != id
    case KillCall(_, target, _, _) => target != id
    case Dispatch(_, _, limits, unsent) => LimitFor(limits, id).Unlimited? && id !in unsent
    case EndBlock(_, _) => true
    case Transfer(_, _, _) => true
  }

  /** Dispatches come in strictly increasing blocks, all after `after`. */
  predicate Increasing(calls: seq<Call>, after: int)
    decreases |calls|
  {
    calls != [] ==>
      if calls[0].Dispatch? then after < calls[0].now && Increasing(calls[1..], calls[0].now)
      else Increasing(calls[1..], after)
  }

  function Dispatches(calls: seq<Call>): nat {
    if calls == [] then 0 else (if calls[0].Dispatch? then 1 else 0) + Dispatches(calls[1..])
  }

  /** The subscription will get no more pulses: it is finalized or gone. */
  predicate Over(s: State, id: SubId) {
    id !in s.subs || s.subs[id].state.Finalized?
  }

  /** After `turns` turns: on track with one credit used by each, or all used and enough delivered for them. */
  ghost predicate Delivering(s: State, id: SubId, who: AccountId, credits: nat, frequency: uint32, after: int,
                             turns: nat)
  {
    var life := LifeOf(s.journal, id);
    && life.Some? && life.value.credits == credits
    && (id in s.subs ==> s.subs[id].details.subscriber == who)
    && if Over(s, id) then credits <= turns && credits <= life.value.delivered * Period(frequency)
       else
         && OnTrack(s.subs[id], credits, life.value.delivered, frequency, after)
         && s.subs[id].creditsLeft + turns == credits
  }

  /** Calls about others leave the subscription and its life alone. */
  lemma OthersCall(cfg: Config, s: State, c: Call, id: SubId)
    requires Enabled(s, c) && LeavesAlone(c, id) && !c.Dispatch? && !c.EndBlock?
    ensures LifeOf(Step(cfg, s, c).journal, id) == LifeOf(s.journal, id)
    ensures id in s.subs <==> id in Step(cfg, s, c).subs
    ensures id in s.subs ==> Step(cfg, s, c).subs[id] == s.subs[id]
  {
    hide ManageDiffFees, Hold, Release, DepositFor;
    match c
    case KillCall(_, target, noFees, noDeposit) =>
      if target in s.subs {
        var released := FeesReleased(target, cfg.price(s.subs[target].creditsLeft));
        Elsewhere(s.journal, released, id);
        Elsewhere(Then(s.journal, released), Entry.Terminated(target), id);
      }
    case _ =>
  }

  lemma {:induction false} DispatchWithout(cfg: Config, s: State, order: seq<SubId>, now: uint32,
                                           limits: map<SubId, Limit>, unsent: set<SubId>, id: SubId)
    requires Orderly(cfg, s) && id !in order && forall k :: k in order ==> k in s.subs
    ensures LifeOf(Distribute(cfg, s, order, now, limits, unsent).journal, id) == LifeOf(s.journal, id)
  {
    hide Orderly, DistributeOne, Sound;
    if order != [] {
      var target, rest := order[|order| - 1], order[..|order| - 1];
      DispatchWithout(cfg, s, rest, now, limits, unsent, id);
      DistributeOrderly(cfg, s, rest, now, limits, unsent);
      var before := Distribute(cfg, s, rest, now, limits, unsent);
      SoundAt(cfg, before, target);
      OthersTurn(cfg, before, target, now, LimitFor(limits, target), target in unsent, id);
    }
  }

  /** Reaping never touches the deliveries of a life, and removes only finalized subscriptions. */
  lemma {:induction false} ReapKeepsLife(cfg: Config, s: State, order: seq<SubId>, stuck: set<SubId>, id: SubId)
    ensures var s' := Reap(cfg, s, order, stuck).state;
            var life, life' := LifeOf(s.journal, id), LifeOf(s'.journal, id);
            && life'.Some? == life.Some?
            && (life.Some? ==>
                  && life'.value.credits == life.value.credits && life'.value.delivered == life.value.delivered
                  && life'.value.collectionFailed == life.value.collectionFailed)
            && (id in s'.subs ==> id in s.subs && s'.subs[id] == s.subs[id])
            && (id in s.subs && !s.subs[id].state.Finalized? ==> id in s'.subs)
  {
    hide ManageDiffFees, Release, DepositFor;
    if order != [] {
      var target, rest := order[|order| - 1], order[..|order| - 1];
      ReapKeepsLife(cfg, s, rest, stuck, id);
      var r := Reap(cfg, s, rest, stuck).state;
      if target in r.subs {
        var released := FeesReleased(target, cfg.price(r.subs[target].creditsLeft));
        Elsewhere(r.journal, released, id);
        Elsewhere(Then(r.journal, released), Entry.Terminated(target), id);
      }
    }
  }

  lemma TurnDelivering(s: State, s': State, id: SubId, who: AccountId, credits: nat, frequency: uint32, after: int,
                       turns: nat, now: uint32)
    requires Delivering(s, id, who, credits, frequency, after, turns) && after < now
    requires id in s.subs && id in s'.subs && TookTurn(s, s', id, now, true)
    ensures Delivering(s', id, who, credits, frequency, now, turns + 1)
  {
    var sub := s.subs[id];
    if !sub.state.Finalized? {
      TurnUsed(credits, LifeOf(s.journal, id).value.delivered, frequency, sub, after, now);
    }
  }

  /** What one call does to the record of failed collections. */
  ghost predicate KeepsRecord(cfg: Config, s: State, s': State, id: SubId, who: AccountId) {
    && (Failed(s, id) ==> Failed(s', id))
    && (Covered(cfg, s, s', who) && !Failed(s, id) ==> !Failed(s', id))
  }

  lemma DispatchDelivering(cfg: Config, s: State, c: Call, id: SubId, who: AccountId, credits: nat, frequency: uint32,
                           after: int, turns: nat)
    requires c.Dispatch? && id in s.subs && Enabled(s, c) && LeavesAlone(c, id) && Orderly(cfg, s) && after < c.now
    requires Failed(s, id) || Delivering(s, id, who, credits, frequency, after, turns)
    ensures Failed(Step(cfg, s, c), id) || Delivering(Step(cfg, s, c), id, who, credits, frequency, c.now, turns + 1)
    ensures KeepsRecord(cfg, s, Step(cfg, s, c), id, who)
  {
    hide Orderly, Covered, OnTrack, LifeOf, Turn, Gain, Distribute, Period;
    DispatchGivesTurn(cfg, s, c.order, c.now, c.limits, c.unsent, id);
    var s' := Step(cfg, s, c);
    if !Failed(s, id) && TookTurn(s, s', id, c.now, true) {
      TurnDelivering(s, s', id, who, credits, frequency, after, turns, c.now);
    }
  }

  lemma StepDelivering(cfg: Config, s: State, c: Call, id: SubId, who: AccountId, credits: nat, frequency: uint32,
                       after: int, turns: nat)
    requires Failed(s, id) || Delivering(s, id, who, credits, frequency, after, turns)
    requires Orderly(cfg, s) && Enabled(s, c) && LeavesAlone(c, id) && (c.Dispatch? ==> after < c.now)
    ensures Failed(Step(cfg, s, c), id) ||
            Delivering(Step(cfg, s, c), id, who, credits, frequency, if c.Dispatch? then c.now else after,
                       turns + Dispatches([c]))
    ensures KeepsRecord(cfg, s, Step(cfg, s, c), id, who)
  {
    hide Orderly, Covered, OnTrack, LifeOf, Reap, Distribute, Period;
    assert [c][1..] == [] && Dispatches([]) == 0;
    match c
    case Dispatch(now, order, limits, unsent) =>
      if id in s.subs {
        DispatchDelivering(cfg, s, c, id, who, credits, frequency, after, turns);
      } else {
        DispatchWithout(cfg, s, order, now, limits, unsent, id);
      }
    case EndBlock(order, stuck) => ReapKeepsLife(cfg, s, order, stuck, id);
    case _ => OthersCall(cfg, s, c, id);
  }

  lemma {:induction false} RunDelivering(cfg: Config, s: State, calls: seq<Call>, id: SubId, who: AccountId,
                                         credits: nat, frequency: uint32, after: int, turns: nat) returns (end: int)
    requires Failed(s, id) || Delivering(s, id, who, credits, frequency, after, turns)
    requires Orderly(cfg, s) && ValidRun(cfg, s, calls)
    requires Increasing(calls, after) && forall i :: 0 <= i < |calls| ==> LeavesAlone(calls[i], id)
    ensures Failed(Run(cfg, s, calls), id) ||
            Delivering(Run(cfg, s, calls), id, who, credits, frequency, end, turns + Dispatches(calls))
    ensures Balanced(cfg, s, who) && NeverDrained(Run(cfg, s, calls).journal, who) && !Failed(s, id) ==>
              !Failed(Run(cfg, s, calls), id)
    decreases |calls|
  {
    hide Delivering, Failed, Orderly, Balanced, NeverDrained, Step, Enabled, LeavesAlone;
    end := after;
    if calls != [] {
      var c := calls[0];
      assert [c][1..] == [] && Dispatches([]) == 0;
      StepDelivering(cfg, s, c, id, who, credits, frequency, after, turns);
      StepOrderly(cfg, s, c);
      end := RunDelivering(cfg, Step(cfg, s, c), calls[1..], id, who, credits, frequency,
                           if c.Dispatch? then c.now else after, turns + Dispatches([c]));
      if Balanced(cfg, s, who) && NeverDrained(Run(cfg, s, calls).journal, who) {
        NotDrainedBefore(cfg, Step(cfg, s, c), calls[1..], who);
        StepBalanced(cfg, s, c, who);
      }
    }
  }

  /** `calls` follow the creation of a subscription and leave it alone, with at most one dispatch per block. */
  ghost predicate LeftAlone(cfg: Config, s: State, calls: seq<Call>, id: SubId) {
    ValidRun(cfg, s, calls) && Increasing(calls, -1) && forall i :: 0 <= i < |calls| ==> LeavesAlone(calls[i], id)
  }

  /**
   * What credits buy. In any reachable state create a subscription, then let anything happen that does not pause,
   * update or kill it and in which its sends are not refused, with at most one dispatch per block. Unless a collection
   * from it fails, it is over exactly when there have been as many dispatches as credits, and then it has had at
   * least one delivery for each period its credits cover. No collection fails if its owner's hold is not drained.
   */
  lemma CreditsBuyPulses(cfg: Config, g: State, past: seq<Call>, who: AccountId, p: CreateParams, generated: SubId,
                         now: uint32, calls: seq<Call>)
    requires Genesis(g) && ValidRun(cfg, g, past)
    requires Create(cfg, Run(cfg, g, past), who, p, generated, now, false, false).Success?
    requires LeftAlone(cfg, Create(cfg, Run(cfg, g, past), who, p, generated, now, false, false).value, calls,
                       NewSubscription(who, p, generated, now).id)
    ensures var s := Create(cfg, Run(cfg, g, past), who, p, generated, now, false, false).value;
            var id, s' := NewSubscription(who, p, generated, now).id, Run(cfg, s, calls);
            && LifeOf(s'.journal, id).Some? && (NeverDrained(s'.journal, who) ==> !Failed(s', id))
            && (!Failed(s', id) ==>
                  && (Over(s', id) <==> Dispatches(calls) >= p.credits)
                  && (Over(s', id) ==> p.credits <= LifeOf(s'.journal, id).value.delivered * Period(p.frequency)))
  {
    hide Run, ValidRun, Balanced, Orderly, NeverDrained, DepositFor, Hold, LeavesAlone, Dispatches;
    var before := Run(cfg, g, past);
    var s := Create(cfg, before, who, p, generated, now, false, false).value;
    var sub := NewSubscription(who, p, generated, now);
    GenesisBalanced(cfg, g, who);
    RunBalanced(cfg, g, past, who);
    RunOrderly(cfg, g, past);
    CreateBalanced(cfg, before, who, p, generated, now, false, false, who);
    CreateOrderly(cfg, before, who, p, generated, now, false, false);
    Elsewhere(before.journal, Created(sub.id, p.credits), sub.id);
    var end := RunDelivering(cfg, s, calls, sub.id, who, p.credits, p.frequency, -1, 0);
  }

  /**
   * Quote sufficiency: with the credits quoted for `lifetime` pulses, and unless a collection fails, the subscription
   * has had at least that many deliveries once it is over, which it is after as many dispatches as credits.
   */
  lemma QuoteSuffices(cfg: Config, g: State, past: seq<Call>, who: AccountId, p: CreateParams, generated: SubId,
                      now: uint32, lifetime: uint32, calls: seq<Call>)
    requires Genesis(g) && ValidRun(cfg, g, past)
    requires Create(cfg, Run(cfg, g, past), who, p, generated, now, false, false).Success?
    requires LeftAlone(cfg, Create(cfg, Run(cfg, g, past), who, p, generated, now, false, false).value, calls,
                       NewSubscription(who, p, generated, now).id)
    ensures var s := Create(cfg, Run(cfg, g, past), who, p, generated, now, false, false).value;
            var id, s' := NewSubscription(who, p, generated, now).id, Run(cfg, s, calls);
            p.credits == CalculateCredits(p.frequency, lifetime) ==>
              && (!Failed(s', id) && (Over(s', id) || Dispatches(calls) >= p.credits) ==>
                    Over(s', id) && LifeOf(s'.journal, id).Some? && LifeOf(s'.journal, id).value.delivered >= lifetime)
              && (NeverDrained(s'.journal, who) ==> !Failed(s', id))
  {
    hide Run, ValidRun, Create, NeverDrained, CalculateCredits, Increasing, LeavesAlone, Failed, Over, Dispatches,
         Period;
    CreditsBuyPulses(cfg, g, past, who, p, generated, now, calls);
    var s' := Run(cfg, Create(cfg, Run(cfg, g, past), who, p, generated, now, false, false).value, calls);
    var delivered := LifeOf(s'.journal, NewSubscription(who, p, generated, now).id).value.delivered;
    QuoteIsExact(p.frequency, lifetime);
    if lifetime * (p.frequency + 1) <= delivered * Period(p.frequency) {
      OutOfCredits(lifetime, p.frequency, delivered);
    }
  }

  /** The documented quote, one idle credit less for each pulse, would be enough as well. */
  lemma DocumentedQuoteSuffices(cfg: Config, g: State, past: seq<Call>, who: AccountId, p: CreateParams,
                                generated: SubId, now: uint32, lifetime: uint32, calls: seq<Call>)
    requires Genesis(g) && ValidRun(cfg, g, past)
    requires Create(cfg, Run(cfg, g, past), who, p, generated, now, false, false).Success?
    requires LeftAlone(cfg, Create(cfg, Run(cfg, g, past), who, p, generated, now, false, false).value, calls,
                       NewSubscription(who, p, generated, now).id)
    ensures var s := Create(cfg, Run(cfg, g, past), who, p, generated, now, false, false).value;
            var id, s' := NewSubscription(who, p, generated, now).id, Run(cfg, s, calls);
            p.frequency >= 1 && p.credits == lifetime * ((p.frequency - 1) * 1 + 1) ==>
            !Failed(s', id) && Over(s', id) ==>
              LifeOf(s'.journal, id).Some? && LifeOf(s'.journal, id).value.delivered >= lifetime
  {
    hide Run, ValidRun, Create, NeverDrained, Increasing, LeavesAlone, Failed, Over, Dispatches;
    CreditsBuyPulses(cfg, g, past, who, p, generated, now, calls);
    var s' := Run(cfg, Create(cfg, Run(cfg, g, past), who, p, generated, now, false, false).value, calls);
    var delivered := LifeOf(s'.journal, NewSubscription(who, p, generated, now).id).value.delivered;
    if p.frequency >= 1 {
      FewerCostLess(delivered, lifetime, p.frequency, p.frequency);
    }
  }
}
