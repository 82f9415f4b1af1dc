/** The randomness beacon pallet: which submissions it accepts and what it remembers of them. */
module Beacon {
  import opened Outcomes
  import opened Saturating
  import opened Scale
  import opened PulseMessages

  datatype BeaconError =
    | BadOrigin
    | InvalidSignature
    | SignatureAlreadyVerified
    | BeaconConfigNotSet
    | ZeroHeightProvided
    | ExcessiveHeightProvided
    | StartExpired
    | MessageRejected(why: MessageError)

  /** Decides whether a signature verifies for the rounds from start to end under a key. */
  type Verifier = (Bytes, Bytes, uint64, uint64) -> Result<(), MessageError>

  /** A pulse handed to the dispatcher, the key that accepted it and the block it was accepted in. */
  datatype Dispatched = Dispatched(pulse: Pulse, key: Bytes, block: nat)

  datatype BeaconState = BeaconState(
    config: Option<Bytes>,
    nextRound: uint64,
    accumulation: Option<Pulse>,
    didUpdate: bool,
    block: nat,
    dispatched: seq<Dispatched>
  )

  /** A submission: where it comes from, whether the block author signed it, and its content. */
  datatype Submission = Submission(unsigned: bool, authored: bool, pulse: Pulse)

  /** `try_submit_asig`. */
  function TrySubmit(verify: Verifier, maxSigs: uint8, s: BeaconState, sub: Submission)
    : Result<BeaconState, BeaconError>
  {
    var start, end := sub.pulse.start, sub.pulse.end;
    var height := SatSub(end, start);
    if !sub.unsigned then Failure(BadOrigin)
    else if !sub.authored then Failure(InvalidSignature)
    else if s.didUpdate then Failure(SignatureAlreadyVerified)
    else if s.config.None? then Failure(BeaconConfigNotSet)
    else if height == 0 && start != end then Failure(ZeroHeightProvided)
    else if height > maxSigs then Failure(ExcessiveHeightProvided)
    else if s.nextRound > 0 && start < s.nextRound then Failure(StartExpired)
    else
      match verify(s.config.value, sub.pulse.signature, start, end)
      case Failure(e) => Failure(MessageRejected(e))
      case Success(_) =>
        Success(s.(
          nextRound := SatAdd(end, 1),
          accumulation := Some(sub.pulse),
          didUpdate := true,
          dispatched := s.dispatched + [Dispatched(sub.pulse, s.config.value, s.block)]
        ))
  }

  /** `validate_unsigned` refuses a submission as stale. */
  predicate StaleInPool(s: BeaconState, pulse: Pulse) {
    pulse.start < s.nextRound
  }

  datatype Event = Submit(submission: Submission) | SetConfig(key: Bytes) | EndOfBlock

  function Next(verify: Verifier, maxSigs: uint8, s: BeaconState, e: Event): BeaconState {
    match e
    case Submit(sub) =>
      var r := TrySubmit(verify, maxSigs, s, sub);
      if r.Success? then r.value else s
    case SetConfig(key) => s.(config := Some(key))
    case EndOfBlock => s.(didUpdate := false, block := s.block + 1)
  }

  function After(verify: Verifier, maxSigs: uint8, s: BeaconState, events: seq<Event>): BeaconState
    decreases |events|
  {
    if events == [] then s else After(verify, maxSigs, Next(verify, maxSigs, s, events[0]), events[1..])
  }

  predicate Start(s: BeaconState) {
    s.nextRound == 0 && s.accumulation.None? && !s.didUpdate && s.dispatched == []
  }

  /** The pallet as it runs. */
  class RandomnessBeacon {
    const verify: Verifier
    const maxSigsPerBlock: uint8
    var beaconConfig: Option<Bytes>
    var nextRound: uint64
    var sparseAccumulation: Option<Pulse>
    var didUpdate: bool
    var block: nat
    var dispatched: seq<Dispatched>

    function Storage(): BeaconState
      reads this
    {
      BeaconState(beaconConfig, nextRound, sparseAccumulation, didUpdate, block, dispatched)
    }

    constructor (verify: Verifier, maxSigs: uint8, key: Option<Bytes>)
      ensures this.verify == verify && maxSigsPerBlock == maxSigs && Start(Storage()) && beaconConfig == key
    {
      this.verify, maxSigsPerBlock, beaconConfig := verify, maxSigs, key;
      nextRound, sparseAccumulation, didUpdate, block, dispatched := 0, None, false, 0, [];
    }

    method TrySubmitAsig(sub: Submission) returns (r: Result<(), BeaconError>)
      modifies this
      ensures Storage() == Next(verify, maxSigsPerBlock, old(Storage()), Submit(sub))
      ensures var spec := TrySubmit(verify, maxSigsPerBlock, old(Storage()), sub);
              r == if spec.Success? then Success(()) else Failure(spec.error)
    {
      if !sub.unsigned { return Failure(BadOrigin); }
      if !sub.authored { return Failure(InvalidSignature); }
      if didUpdate { return Failure(SignatureAlreadyVerified); }
      if beaconConfig.None? { return Failure(BeaconConfigNotSet); }
      var pk, start, end := beaconConfig.value, sub.pulse.start, sub.pulse.end;
      var height := SatSub(end, start);
      if height == 0 {
        if start != end { return Failure(ZeroHeightProvided); }
      }
      if height > maxSigsPerBlock { return Failure(ExcessiveHeightProvided); }
      if nextRound > 0 {
        if start < nextRound { return Failure(StartExpired); }
      }
      var verified := verify(pk, sub.pulse.signature, start, end);
      if verified.Failure? { return Failure(MessageRejected(verified.error)); }
      nextRound := SatAdd(end, 1);
      sparseAccumulation := Some(sub.pulse);
      didUpdate := true;
      dispatched := dispatched + [Dispatched(sub.pulse, pk, block)];
      return Success(());
    }

    /** Only local or in-block calls pass, and only if the start is not behind. */
    method ValidateUnsigned(local: bool, pulse: Pulse) returns (valid: bool)
      ensures valid <==> local && !StaleInPool(Storage(), pulse)
    {
      if !local { return false; }
      if pulse.start < nextRound { return false; }
      return true;
    }

    method SetBeaconConfig(key: Bytes)
      modifies this`beaconConfig
      ensures Storage() == Next(verify, maxSigsPerBlock, old(Storage()), SetConfig(key))
    {
      beaconConfig := Some(key);
    }

    /** Clears the once-per-block flag; the next block begins. */
    method OnFinalize() returns (ingested: bool)
      modifies this`didUpdate, this`block
      ensures Storage() == Next(verify, maxSigsPerBlock, old(Storage()), EndOfBlock) && ingested == old(didUpdate)
    {
      ingested := didUpdate;
      didUpdate := false;
      block := block + 1;
    }
  }
}
