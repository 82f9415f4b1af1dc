/** What each call of the manager pallet does to its storage. A failed call has no effect. */
module ManagerSpec {
  import opened Outcomes
  import opened Saturating
  import opened Currency
  import opened Subscriptions

  datatype Error =
    | SubscriptionAlreadyExists
    | SubscriptionDoesNotExist
    | SubscriptionInvalidTransition
    | SubscriptionNotUpdatable
    | NotSubscriber
    | TooManySubscriptions
    | InvalidParams
    | CurrencyError

  // ---------- fees and deposits ----------

  /** The pallet's `BalanceDirection`; `Release` and `None` are called otherwise here, as both names are taken. */
  datatype Direction = Collect | Refund | Nothing

  datatype Diff = Diff(balance: nat, direction: Direction)

  /** `calculate_diff_fees`: what changing the credits costs or gives back. */
  function DiffFees(cfg: Config, oldCredits: uint64, newCredits: uint64): Diff {
    var before, after := cfg.price(oldCredits), cfg.price(newCredits);
    if after > before then Diff(after - before, Collect)
    else if after < before then Diff(before - after, Refund)
    else Diff(0, Nothing)
  }

  /** `manage_diff_fees`: hold more, release exactly, or leave alone. */
  function ManageDiffFees(b: Balances, who: AccountId, diff: Diff, refused: bool): Option<Balances> {
    match diff.direction
    case Collect => Hold(b, Fees, who, diff.balance, refused)
    case Refund => Release(b, Fees, who, diff.balance, Exact, refused)
    case Nothing => Some(b)
  }

  /** `calculate_storage_deposit`. */
  function DepositFor(cfg: Config, sub: Subscription): uint128 {
    SatMul128(cfg.depositMultiplier, Min(EncodedSize(sub), U64_MAX))
  }

  function Log(s: State, e: Entry): State {
    s.(journal := Then(s.journal, e))
  }

  // ---------- calls by subscribers ----------

  datatype CreateParams = CreateParams(
    credits: uint64,
    encodedSize: nat,
    frequency: uint32,
    metadata: Option<seq<uint8>>,
    subId: Option<SubId>
  )

  /** The subscription `create_subscription` stores; `generated` is the hash used when no id is given. */
  function NewSubscription(caller: AccountId, p: CreateParams, generated: SubId, now: uint32): Subscription {
    var id := if p.subId.Some? then p.subId.value else generated;
    Subscription(id, Details(caller, p.encodedSize), p.credits, Active, now, now, p.credits, p.frequency, p.metadata,
                 None)
  }

  function Create(cfg: Config, s: State, caller: AccountId, p: CreateParams, generated: SubId, now: uint32,
                  refuseFees: bool, refuseDeposit: bool): Result<State, Error>
  {
    if p.credits == 0 then Failure(InvalidParams)
    else if s.counter >= cfg.maxSubscriptions then Failure(TooManySubscriptions)
    else
      var sub := NewSubscription(caller, p, generated, now);
      if sub.id in s.subs then Failure(SubscriptionAlreadyExists)
      else
        match Hold(s.balances, Fees, caller, cfg.price(p.credits), refuseFees)
        case None => Failure(CurrencyError)
        case Some(b) =>
          match Hold(b, StorageDeposit, caller, DepositFor(cfg, sub), refuseDeposit)
          case None => Failure(CurrencyError)
          case Some(b') =>
            Success(State(s.subs[sub.id := sub], s.counter + 1, b', Then(s.journal, Created(sub.id, p.credits))))
  }

  /** The checks every call on an existing subscription starts with. */
  function Owned(s: State, caller: AccountId, id: SubId): Result<Subscription, Error> {
    if id !in s.subs then Failure(SubscriptionDoesNotExist)
    else if s.subs[id].details.subscriber != caller then Failure(NotSubscriber)
    else Success(s.subs[id])
  }

  function Pause(s: State, caller: AccountId, id: SubId): Result<State, Error> {
    match Owned(s, caller, id)
    case Failure(e) => Failure(e)
    case Success(sub) =>
      if !sub.state.Active? then Failure(SubscriptionInvalidTransition)
      else Success(Log(s.(subs := s.subs[id := sub.(state := Paused)]), Suspended(id)))
  }

  function Reactivate(s: State, caller: AccountId, id: SubId): Result<State, Error> {
    match Owned(s, caller, id)
    case Failure(e) => Failure(e)
    case Success(sub) =>
      if !sub.state.Paused? then Failure(SubscriptionInvalidTransition)
      else Success(Log(s.(subs := s.subs[id := sub.(state := Active)]), Entry.Reactivated(id)))
  }

  datatype UpdateParams = UpdateParams(
    credits: Option<uint64>,
    frequency: Option<uint32>,
    metadata: Option<Option<seq<uint8>>>
  )

  function Amended(sub: Subscription, p: UpdateParams, now: uint32): Subscription {
    sub.(
      credits := if p.credits.Some? then p.credits.value else sub.credits,
      frequency := if p.frequency.Some? then p.frequency.value else sub.frequency,
      metadata := if p.metadata.Some? then p.metadata.value else sub.metadata,
      updatedAt := now
    )
  }

  /**
   * `update_subscription`: the fee difference is held or released, the credits left are not touched.
   * The deposit is compared with a copy of the already updated subscription, so it never moves.
   */
  function Update(cfg: Config, s: State, caller: AccountId, id: SubId, p: UpdateParams, now: uint32, refused: bool)
    : Result<State, Error>
  {
    match Owned(s, caller, id)
    case Failure(e) => Failure(e)
    case Success(sub) =>
      if sub.state.Finalized? then Failure(SubscriptionNotUpdatable)
      else
        var sub' := Amended(sub, p, now);
        match ManageDiffFees(s.balances, caller, DiffFees(cfg, sub.credits, sub'.credits), refused)
        case None => Failure(CurrencyError)
        case Some(b) =>
          Success(Log(s.(subs := s.subs[id := sub'], balances := b),
                      Entry.Updated(id, caller, cfg.price(sub.credits), cfg.price(sub'.credits),
                                    DepositFor(cfg, sub), DepositFor(cfg, sub'))))
  }

  /** Where `terminate_subscription` leaves storage, and whether it went through. */
  datatype Termination = Termination(state: State, done: bool)

  /** `terminate_subscription`: fees for the credits left go back exactly, the deposit as far as it is held. */
  function Terminate(cfg: Config, s: State, id: SubId, refuseFees: bool, refuseDeposit: bool): Termination
    requires id in s.subs
  {
    var sub := s.subs[id];
    var who := sub.details.subscriber;
    match ManageDiffFees(s.balances, who, DiffFees(cfg, sub.creditsLeft, 0), refuseFees)
    case None => Termination(s, false)
    case Some(b) =>
      var paid := Log(s.(balances := b), FeesReleased(id, cfg.price(sub.creditsLeft)));
      match Release(b, StorageDeposit, who, DepositFor(cfg, sub), BestEffort, refuseDeposit)
      case None => Termination(paid, false)
      case Some(b') =>
        Termination(
          State(s.subs - {id}, SatDec(s.counter), b', Then(paid.journal, Entry.Terminated(id))), true)
  }

  function SatDec(n: uint32): uint32 {
    if n == 0 then 0 else n - 1
  }

  function Kill(cfg: Config, s: State, caller: AccountId, id: SubId, refuseFees: bool, refuseDeposit: bool)
    : Result<State, Error>
  {
    match Owned(s, caller, id)
    case Failure(e) => Failure(e)
    case Success(sub) =>
      var t := Terminate(cfg, s, id, refuseFees, refuseDeposit);
      if t.done then Success(t.state) else Failure(CurrencyError)
  }

  // ---------- distribution of a pulse ----------

  /** Active, and either never served or served long enough ago; the addition wraps like the runtime's. */
  predicate Due(sub: Subscription, now: uint32) {
    && sub.state.Active?
    && (sub.lastDelivered.None? || now >= WrapAdd32(sub.lastDelivered.value, sub.frequency))
  }

  /** What one credit of this subscription costs now. */
  function CreditFee(cfg: Config, sub: Subscription): nat {
    DiffFees(cfg, sub.creditsLeft, SatSub(sub.creditsLeft, 1)).balance
  }

  /**
   * What the currency lets a collection take: up to what is on hold, nothing because it refuses, or at most an
   * amount, as when a freeze reaches into the held balance.
   */
  datatype Limit = Unlimited | Refused | AtMost(most: nat)

  function LimitFor(limits: map<SubId, Limit>, id: SubId): Limit {
    if id in limits then limits[id] else Unlimited
  }

  /** What `collect_fees` takes from the hold, at best effort. */
  function Taken(cfg: Config, s: State, sub: Subscription, limit: Limit): nat {
    var most := Min(CreditFee(cfg, sub), At(s.balances.fees, sub.details.subscriber));
    match limit
    case Unlimited => most
    case Refused => 0
    case AtMost(n) => Min(n, most)
  }

  /** Whether `collect_fees` succeeds. */
  predicate Collects(cfg: Config, s: State, sub: Subscription, limit: Limit) {
    !limit.Refused? && Taken(cfg, s, sub, limit) == CreditFee(cfg, sub)
  }

  /** Balances after `collect_fees`: what could be taken is gone even though the collection then fails. */
  function AfterCollection(cfg: Config, s: State, sub: Subscription, limit: Limit): Balances {
    if limit.Refused? then s.balances
    else TransferFees(s.balances, sub.details.subscriber, cfg.treasury, Taken(cfg, s, sub, limit))
  }

  /** A failed collection: refused by the currency, or short of the fee after taking what could be taken. */
  function FailedCollection(cfg: Config, s: State, sub: Subscription, limit: Limit, forgone: nat): Entry {
    var who := sub.details.subscriber;
    var error := if limit.Refused? then Other else NotEnoughBalance(CreditFee(cfg, sub), At(s.balances.fees, who));
    CollectionFailed(sub.id, who, error, Taken(cfg, s, sub, limit), forgone)
  }

  /** A collection moves what it takes from the hold to the treasury, which is no more than the fee and the hold. */
  lemma Collected(cfg: Config, s: State, sub: Subscription, limit: Limit, who: AccountId)
    ensures var taken, b := Taken(cfg, s, sub, limit), AfterCollection(cfg, s, sub, limit);
            && taken <= CreditFee(cfg, sub) && taken <= At(s.balances.fees, sub.details.subscriber)
            && (limit.Refused? ==> taken == 0) && (limit.AtMost? ==> taken <= limit.most)
            && (taken == CreditFee(cfg, sub) || taken == At(s.balances.fees, sub.details.subscriber) ||
                limit.Refused? || (limit.AtMost? && taken == limit.most))
            && At(b.fees, who) == At(s.balances.fees, who) - (if who == sub.details.subscriber then taken else 0)
            && At(b.free, who) == At(s.balances.free, who) + (if who == cfg.treasury then taken else 0)
            && b.deposit == s.balances.deposit
  {
    hide CreditFee;
  }

  /** A subscription that cannot pay for another block is finalized. */
  function Settle(sub: Subscription): Subscription {
    if !sub.state.Finalized? && sub.creditsLeft < 1 then sub.(state := Finalized) else sub
  }

  function Served(sub: Subscription, now: uint32): Subscription {
    sub.(creditsLeft := SatSub(sub.creditsLeft, 1), lastDelivered := Some(now))
  }

  /** A due subscription pays for one credit and gets the pulse; either failing pauses it. */
  function Deliver(cfg: Config, s: State, id: SubId, now: uint32, limit: Limit, unsent: bool): State
    requires id in s.subs
  {
    var sub := s.subs[id];
    var b := AfterCollection(cfg, s, sub, limit);
    if !Collects(cfg, s, sub, limit) then
      var failed := Log(s.(balances := b), FailedCollection(cfg, s, sub, limit, 0));
      Log(failed.(subs := s.subs[id := sub.(state := Paused)]), Suspended(id))
    else
      var tried := Log(Log(s.(balances := b), FeesCollected(sub.id, CreditFee(cfg, sub))),
                       SendAttempted(id, now, sub.frequency));
      if unsent then Log(tried.(subs := s.subs[id := Served(sub, now).(state := Paused)]), Suspended(id))
      else Log(tried.(subs := s.subs[id := Settle(Served(sub, now))]), Entry.Distributed(id))
  }

  /** Any other subscription pays for one idle credit, whether or not the collection succeeds. */
  function Idle(cfg: Config, s: State, id: SubId, limit: Limit): State
    requires id in s.subs
  {
    var sub := s.subs[id];
    var sub' := sub.(creditsLeft := SatSub(sub.creditsLeft, 1));
    var e := if Collects(cfg, s, sub, limit) then FeesCollected(sub.id, CreditFee(cfg, sub))
             else FailedCollection(cfg, s, sub, limit, CreditFee(cfg, sub));
    Log(s.(balances := AfterCollection(cfg, s, sub, limit), subs := s.subs[id := Settle(sub')]), e)
  }

  function DistributeOne(cfg: Config, s: State, id: SubId, now: uint32, limit: Limit, unsent: bool): State
    requires id in s.subs
  {
    if Due(s.subs[id], now) then Deliver(cfg, s, id, now, limit, unsent) else Idle(cfg, s, id, limit)
  }

  /** `distribute` over the subscriptions named by `order`; `limits` hinder payments and sends to `unsent` fail. */
  function Distribute(cfg: Config, s: State, order: seq<SubId>, now: uint32, limits: map<SubId, Limit>,
                      unsent: set<SubId>): (s': State)
    requires forall id :: id in order ==> id in s.subs
    ensures s'.subs.Keys == s.subs.Keys
  {
    if order == [] then s
    else
      var id := order[|order| - 1];
      var before := Distribute(cfg, s, order[..|order| - 1], now, limits, unsent);
      DistributeOne(cfg, before, id, now, LimitFor(limits, id), id in unsent)
  }

  // ---------- end of a block ----------

  /** Storage after looking at some of the subscriptions, and how many were picked for termination. */
  datatype Reaping = Reaping(state: State, picked: nat)

  function ReapOne(cfg: Config, r: Reaping, id: SubId, refused: bool): Reaping {
    if id in r.state.subs && r.state.subs[id].state.Finalized? && r.picked < cfg.maxTerminatable then
      Reaping(Terminate(cfg, r.state, id, refused, refused).state, r.picked + 1)
    else r
  }

  /** `on_finalize`: terminate the first finalized subscriptions in `order`, up to the block's limit. */
  function Reap(cfg: Config, s: State, order: seq<SubId>, refused: set<SubId>): Reaping {
    if order == [] then Reaping(s, 0)
    else
      var id := order[|order| - 1];
      ReapOne(cfg, Reap(cfg, s, order[..|order| - 1], refused), id, id in refused)
  }
}
