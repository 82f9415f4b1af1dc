/** Subscriptions, what the manager pallet stores, and the journal of what it has done. */
module Subscriptions {
  import opened Outcomes
  import opened Saturating
  import opened Currency
  import Scale

  type SubId = nat

  datatype SubState = Active | Paused | Finalized

  /** The immutable part of a subscription; target and call data count only by their encoded size. */
  datatype Details = Details(subscriber: AccountId, encodedSize: nat)

  datatype Subscription = Subscription(
    id: SubId,
    details: Details,
    creditsLeft: uint64,
    state: SubState,
    createdAt: uint32,
    updatedAt: uint32,
    credits: uint64,
    frequency: uint32,
    metadata: Option<seq<uint8>>,
    lastDelivered: Option<uint32>
  )

  /** Bytes of a subscription in storage: fixed fields, then the two optional ones. */
  function EncodedSize(sub: Subscription): nat {
    32 + sub.details.encodedSize + 8 + 1 + 4 + 4 + 8 + 4 +
    MetadataSize(sub.metadata) + (if sub.lastDelivered.None? then 1 else 5)
  }

  function MetadataSize(metadata: Option<seq<uint8>>): nat {
    match metadata
    case None => 1
    case Some(bytes) => 1 + Scale.CompactSize(|bytes|) + |bytes|
  }

  /** A fee schedule: nothing costs nothing, and more credits never cost less. */
  ghost predicate IsPrice(p: uint64 -> uint64) {
    p(0) == 0 && forall a: uint64, b: uint64 :: a <= b ==> p(a) <= p(b)
  }

  type Price = p: uint64 -> uint64 | IsPrice(p) ghost witness (c: uint64) => 0

  datatype Config = Config(
    price: Price,
    depositMultiplier: uint128,
    maxSubscriptions: uint32,
    maxTerminatable: uint32,
    treasury: AccountId
  )

  /** Why a collection failed; the journal notes what was needed and what was on hold before. */
  datatype FeesError = NotEnoughBalance(needed: nat, held: nat) | Other

  /** What the pallet does that others can see: its events, its sends, and fees it failed to collect. */
  datatype Entry =
    | Created(id: SubId, credits: uint64)
    | Suspended(id: SubId)
    | Reactivated(id: SubId)
    | Updated(id: SubId, who: AccountId, oldFee: nat, newFee: nat, oldDeposit: nat, newDeposit: nat)
    | FeesCollected(id: SubId, fees: nat)
    | CollectionFailed(id: SubId, who: AccountId, error: FeesError, taken: nat, forgone: nat)
    | SendAttempted(id: SubId, block: uint32, frequency: uint32)
    | Distributed(id: SubId)
    | FeesReleased(id: SubId, fees: nat)
    | Terminated(id: SubId)

  /** Entries in the order they were made, the latest outermost. */
  datatype Journal = Empty | Then(past: Journal, latest: Entry)

  datatype State = State(
    subs: map<SubId, Subscription>,
    counter: uint32,
    balances: Balances,
    journal: Journal
  )
}
