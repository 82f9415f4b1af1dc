/** The message a pulse signs, as the chain builds it and as a consumer rebuilds it. */
module PulseMessages {
  import opened Outcomes
  import opened Saturating
  import opened Scale
  import opened Pairing

  /** An aggregated signature and the rounds it covers, first to last. */
  datatype Pulse = Pulse(signature: Bytes, start: uint64, end: uint64)

  datatype MessageError = SerializationFailed | VerificationFailed

  /** The rounds from `start` up to but not including `stop`. */
  function Rounds(start: nat, stop: nat): seq<uint64>
    requires stop <= U64_MAX + 1
  {
    if start >= stop then [] else Rounds(start, stop - 1) + [stop - 1]
  }

  predicate AllHash<G1(!new), G2(!new), L(!new), T(==, !new)>(c: Curve<G1, G2, L, T>, rounds: seq<uint64>) {
    forall i :: 0 <= i < |rounds| ==> c.hash(rounds[i]).Some?
  }

  /** What `verify_beacon_signature` decides. */
  function VerifyRounds<G1(!new), G2(!new), L(!new), T(==, !new)>(
      c: Curve<G1, G2, L, T>, key: Bytes, asig: Bytes, start: uint64, end: uint64): Result<(), MessageError>
  {
    var rounds := Rounds(start, end + 1);
    if !AllHash(c, rounds) then Failure(SerializationFailed)
    else if c.Verify(key, asig, c.encode(c.Fold(c.Points(rounds)))).Success? then Success(())
    else Failure(VerificationFailed)
  }

  lemma OneMoreRound<G1(!new), G2(!new), L(!new), T(!new)>(c: Curve<G1, G2, L, T>, start: nat, stop: nat)
    requires start <= stop <= U64_MAX
    ensures Rounds(start, stop + 1) == Rounds(start, stop) + [stop]
    ensures c.Points(Rounds(start, stop + 1)) == c.Points(Rounds(start, stop)) + [c.Point(stop)]
    ensures c.Fold(c.Points(Rounds(start, stop + 1))) == c.add(c.Fold(c.Points(Rounds(start, stop))), c.Point(stop))
  {
    var points, more := c.Points(Rounds(start, stop)), c.Points(Rounds(start, stop + 1));
    assert more == points + [c.Point(stop)];
    assert more[..|more| - 1] == points;
  }

  lemma {:induction false} InRange(start: nat, stop: nat, round: nat)
    requires start <= round < stop <= U64_MAX + 1
    ensures round as uint64 in Rounds(start, stop)
  {
    if round < stop - 1 { InRange(start, stop - 1, round); }
  }

  /** The chain's loop: add up the points of the rounds, stop at the first that cannot be hashed. */
  method VerifyBeaconSignature<G1(!new), G2(!new), L(!new), T(==, !new)>(
      c: Curve<G1, G2, L, T>, key: Bytes, asig: Bytes, start: uint64, end: uint64)
    returns (r: Result<(), MessageError>)
    ensures r == VerifyRounds(c, key, asig, start, end)
  {
    var amsg := c.zero;
    var round := start as nat;
    while round <= end
      invariant start <= round && (start <= end ==> round <= end + 1) && (start > end ==> round == start)
      invariant start <= end ==> AllHash(c, Rounds(start, round)) && amsg == c.Fold(c.Points(Rounds(start, round)))
      invariant start > end ==> amsg == c.zero
    {
      var msg := c.hash(round);
      if msg.None? {
        InRange(start, end + 1, round);
        return Failure(SerializationFailed);
      }
      OneMoreRound(c, start, round);
      amsg := c.add(amsg, msg.value);
      round := round + 1;
    }
    var bytes := c.encode(amsg);
    var verified := c.Verify(key, asig, bytes);
    if verified.Failure? { return Failure(VerificationFailed); }
    return Success(());
  }

  /** `RuntimePulse::message`: a fold over the half-open range, whose upper bound wraps. */
  function Message<G1(!new), G2(!new), L(!new), T(==, !new)>(c: Curve<G1, G2, L, T>, pulse: Pulse): Bytes {
    var bytes := c.encode(c.Fold(c.Points(Rounds(pulse.start, WrapAdd64(pulse.end, 1)))));
    if |bytes| == 48 then bytes else seq(48, i => 0)
  }

  /** `RuntimePulse::authenticate`. */
  predicate Authenticates<G1(!new), G2(!new), L(!new), T(==, !new)>(c: Curve<G1, G2, L, T>, pulse: Pulse, key: Bytes) {
    c.Verify(key, pulse.signature, Message(c, pulse)).Success?
  }

  /** The consumer rebuilds the message the chain verified, for every interval but those ending at the last round. */
  lemma SameMessage<G1(!new), G2(!new), L(!new), T(!new)>(c: Curve<G1, G2, L, T>, pulse: Pulse)
    requires c.Lawful()
    ensures pulse.end < U64_MAX ==> Message(c, pulse) == c.encode(c.Fold(c.Points(Rounds(pulse.start, pulse.end + 1))))
    ensures pulse.end == U64_MAX ==> Message(c, pulse) == c.encode(c.zero)
  {
    c.EncodingLaws(c.Fold(c.Points(Rounds(pulse.start, WrapAdd64(pulse.end, 1)))));
    if pulse.end < U64_MAX {
      assert WrapAdd64(pulse.end, 1) == pulse.end + 1;
    } else {
      assert WrapAdd64(pulse.end, 1) == 0;
      assert Rounds(pulse.start, 0) == [];
      assert c.Fold([]) == c.zero;
    }
  }

  /**
   * Chain and consumer agree: a pulse whose rounds can all be hashed authenticates under a key exactly when the
   * chain accepts it under that key, for every interval that ends before the last round.
   */
  lemma ConsumerAgrees<G1(!new), G2(!new), L(!new), T(!new)>(c: Curve<G1, G2, L, T>, pulse: Pulse, key: Bytes)
    requires c.Lawful() && pulse.end < U64_MAX
    ensures VerifyRounds(c, key, pulse.signature, pulse.start, pulse.end).Success? <==>
            AllHash(c, Rounds(pulse.start, pulse.end + 1)) && Authenticates(c, pulse, key)
  {
    SameMessage(c, pulse);
  }

  /** At the last round the two part ways: the consumer checks against the empty sum. */
  lemma ConsumerAtLastRound<G1(!new), G2(!new), L(!new), T(!new)>(c: Curve<G1, G2, L, T>, pulse: Pulse, key: Bytes)
    requires c.Lawful() && pulse.end == U64_MAX
    ensures Authenticates(c, pulse, key) <==>
            && c.decode2(key).Some? && c.decode(pulse.signature).Some?
            && c.pair(c.decode(pulse.signature).value, c.generator) == c.one
  {
    hide Curve.Lawful, Curve.FastPairing, Message;
    SameMessage(c, pulse);
    c.EncodingLaws(c.zero);
    if c.decode2(key).Some? && c.decode(pulse.signature).Some? {
      var sig, pk := c.decode(pulse.signature).value, c.decode2(key).value;
      c.FastPairingIff(sig, c.generator, c.zero, pk);
      c.PairZero(pk);
    }
  }

  /** A round that cannot be hashed adds nothing to the message a consumer builds; any other adds its hash. */
  lemma UnhashableAddsNothing<G1(!new), G2(!new), L(!new), T(!new)>(c: Curve<G1, G2, L, T>, start: nat, stop: nat)
    requires c.Lawful() && start <= stop <= U64_MAX
    ensures var sum, more := c.Fold(c.Points(Rounds(start, stop))), c.Fold(c.Points(Rounds(start, stop + 1)));
            more == match c.hash(stop) case None => sum case Some(point) => c.add(sum, point)
  {
    hide Curve.Lawful, Curve.Fold, Curve.Points;
    OneMoreRound(c, start, stop);
    var sum := c.Fold(c.Points(Rounds(start, stop)));
    c.AddLaws(sum, c.zero, c.zero);
    c.AddLaws(c.zero, sum, c.zero);
  }

  // ---------- what the chain accepts ----------

  /** The signature paired with the generator is the sum of the points of the rounds paired with the key. */
  predicate Signs<G1(!new), G2(!new), L(!new), T(==, !new)>(
      c: Curve<G1, G2, L, T>, key: Bytes, asig: Bytes, start: uint64, end: uint64)
  {
    var pk, sig := c.decode2(key), c.decode(asig);
    && pk.Some? && sig.Some?
    && c.pair(sig.value, c.generator) == c.pair(c.Fold(c.Points(Rounds(start, end + 1))), pk.value)
  }

  /**
   * The chain accepts a signature exactly if every round of the interval can be hashed and the signature signs their
   * sum; if a round cannot be hashed it says so, and otherwise that the verification failed.
   */
  lemma ChainAcceptsIff<G1(!new), G2(!new), L(!new), T(!new)>(
      c: Curve<G1, G2, L, T>, key: Bytes, asig: Bytes, start: uint64, end: uint64)
    requires c.Lawful()
    ensures var r := VerifyRounds(c, key, asig, start, end);
            var hashed := forall round: uint64 :: start <= round <= end ==> c.hash(round).Some?;
            && (r.Success? <==> hashed && Signs(c, key, asig, start, end))
            && (r == Failure(SerializationFailed) <==> !hashed)
  {
    hide Curve.Lawful, Curve.Verify;
    var message := c.Fold(c.Points(Rounds(start, end + 1)));
    c.EncodingLaws(message);
    c.VerifyIff(key, asig, c.encode(message));
    AllHashIff(c, start, end);
  }

  lemma AllHashIff<G1(!new), G2(!new), L(!new), T(!new)>(c: Curve<G1, G2, L, T>, start: uint64, end: uint64)
    ensures AllHash(c, Rounds(start, end + 1)) <==>
            forall round: uint64 :: start <= round <= end ==> c.hash(round).Some?
  {
    var rounds := Rounds(start, end + 1);
    if AllHash(c, rounds) {
      forall round: uint64 | start <= round <= end ensures c.hash(round).Some? { InRange(start, end + 1, round); }
    }
    forall i | 0 <= i < |rounds| ensures start <= rounds[i] <= end { RoundAt(start, end + 1, i); }
  }

  /** The rounds of an interval, one after the other. */
  lemma {:induction false} RoundAt(start: nat, stop: nat, i: nat)
    requires stop <= U64_MAX + 1 && i < |Rounds(start, stop)|
    ensures start <= stop && |Rounds(start, stop)| == stop - start && Rounds(start, stop)[i] == start + i
  {
    if i < |Rounds(start, stop)| - 1 {
      RoundAt(start, stop - 1, i);
    } else if |Rounds(start, stop)| > 1 {
      RoundAt(start, stop - 1, i - 1);
    }
  }

  /** A signature that does not sign is refused: over the two-element groups, the zero signature on round one. */
  lemma UnsignedIsRefused(key: Bytes)
    requires key == [1]
    ensures VerifyRounds(Parity(), key, Parity().encode(false), 1, 1) == Failure(VerificationFailed)
  {
    hide Curve.Lawful, VerifyRounds, Curve.Fold, Curve.Points;
    var c := Parity();
    ParityIsLawful();
    var rounds: seq<uint64> := [1];
    assert Rounds(1, 2) == rounds && c.hash(1) == Some(true);
    assert c.Points(rounds) == [true] by { OnePoint(c, 1); }
    OnePointSum(c, true);
    assert c.decode2(key) == Some(true) && c.decode(c.encode(false)) == Some(false);
    ParityInstance(false, true, true, true);
    ParityInstance(true, true, true, true);
    assert !Signs(c, key, c.encode(false), 1, 1);
    assert forall round: uint64 :: c.hash(round).Some?;
    ChainAcceptsIff(c, key, c.encode(false), 1, 1);
    var r := VerifyRounds(c, key, c.encode(false), 1, 1);
    assert r.Failure? && r != Failure(SerializationFailed);
    assert r.error == VerificationFailed;
  }

  lemma OnePoint(c: Curve<bool, bool, bool, bool>, round: uint64)
    ensures c.Points([round]) == [c.Point(round)]
  {
  }

  lemma OnePointSum(c: Curve<bool, bool, bool, bool>, point: bool)
    requires c.Lawful()
    ensures c.Fold([point]) == point
  {
    hide Curve.Lawful;
    assert [point][..0] == [];
    c.AddLaws(point, point, point);
  }

  // ---------- honest beacons are accepted ----------

  lemma {:induction false} PointsAnyOrder<G1(!new), G2(!new), L(!new), T(!new)>(
      c: Curve<G1, G2, L, T>, a: seq<uint64>, b: seq<uint64>)
    requires multiset(a) == multiset(b)
    ensures multiset(c.Points(a)) == multiset(c.Points(b))
    decreases |a|
  {
    if a == [] {
      assert |b| == |multiset(b)| == 0;
    } else {
      var n := |a| - 1;
      var i := LastElsewhere(a, b);
      PointsAnyOrder(c, a[..n], b[..i] + b[i + 1..]);
      PointsRemove(c, a, n);
      PointsRemove(c, b, i);
      assert a[..n] + a[n + 1..] == a[..n];
    }
  }

  lemma PointsRemove<G1(!new), G2(!new), L(!new), T(!new)>(c: Curve<G1, G2, L, T>, a: seq<uint64>, i: nat)
    requires i < |a|
    ensures multiset(c.Points(a)) == multiset(c.Points(a[..i] + a[i + 1..])) + multiset{c.Point(a[i])}
  {
    var p := c.Points(a);
    assert p == p[..i] + [p[i]] + p[i + 1..];
    assert c.Points(a[..i] + a[i + 1..]) == p[..i] + p[i + 1..];
  }

  /** The beacon's signatures on all rounds of an interval, added up in any order, are accepted by the chain. */
  lemma HonestIntervalAccepted<G1(!new), G2(!new), L(!new), T(!new)>(
      c: Curve<G1, G2, L, T>, key: nat, start: uint64, end: uint64, order: seq<uint64>, pk: Bytes)
    requires c.Lawful() && key > 0 && AllHash(c, Rounds(start, end + 1))
    requires multiset(order) == multiset(Rounds(start, end + 1))
    requires c.decode2(pk) == Some(c.Multiple2(key, c.generator))
    ensures VerifyRounds(c, pk, c.encode(c.Fold(c.Signed(key, c.Points(order)))), start, end).Success?
  {
    hide Curve.Lawful, Curve.FastPairing, Curve.Fold, Curve.Signed, Curve.Points, Rounds;
    var rounds := Rounds(start, end + 1);
    PointsAnyOrder(c, order, rounds);
    c.HonestAggregateVerifies(key, c.Points(rounds), c.Points(order));
    c.EncodingLaws(c.Fold(c.Signed(key, c.Points(order))));
    c.EncodingLaws(c.Fold(c.Points(rounds)));
  }

  /**
   * An honest pulse that ends at the last round is accepted by the chain; the consumer authenticates it exactly if
   * the message pairs with the public key to one.
   */
  lemma HonestLastRound<G1(!new), G2(!new), L(!new), T(!new)>(
      c: Curve<G1, G2, L, T>, key: nat, start: uint64, pk: Bytes, pulse: Pulse)
    requires c.Lawful() && key > 0 && AllHash(c, Rounds(start, U64_MAX + 1))
    requires c.decode2(pk) == Some(c.Multiple2(key, c.generator))
    requires pulse == Pulse(c.encode(c.Fold(c.Signed(key, c.Points(Rounds(start, U64_MAX + 1))))), start, U64_MAX)
    ensures VerifyRounds(c, pk, pulse.signature, start, U64_MAX).Success?
    ensures Authenticates(c, pulse, pk) <==>
            c.pair(c.Fold(c.Points(Rounds(start, U64_MAX + 1))), c.Multiple2(key, c.generator)) == c.one
  {
    hide Curve.Lawful, VerifyRounds, Authenticates, AllHash, Rounds;
    var rounds := Rounds(start, U64_MAX + 1);
    HonestIntervalAccepted(c, key, start, U64_MAX, rounds, pk);
    ConsumerAtLastRound(c, pulse, pk);
    c.EncodingLaws(c.Fold(c.Signed(key, c.Points(rounds))));
    c.FoldSigned(key, c.Points(rounds));
    c.KeyMoves(key, c.Fold(c.Points(rounds)), c.generator);
  }

  /** Such a pulse exists: over the two-element groups the chain accepts round `u64::MAX`, the consumer refuses it. */
  lemma LastRoundRefused(pulse: Pulse, pk: Bytes)
    requires pulse == Pulse(Parity().encode(true), U64_MAX, U64_MAX) && pk == [1]
    ensures VerifyRounds(Parity(), pk, pulse.signature, U64_MAX, U64_MAX).Success?
    ensures !Authenticates(Parity(), pulse, pk)
  {
    hide Curve.Lawful, VerifyRounds, Authenticates;
    var c := Parity();
    ParityIsLawful();
    assert c.hash(U64_MAX) == Some(true) && c.decode2(pk) == Some(true) && c.generator == true;
    assert Rounds(U64_MAX, U64_MAX + 1) == [U64_MAX];
    LastRoundPoint(c);
    assert c.Signed(1, [true]) == [true];
    HonestLastRound(c, 1, U64_MAX, pk, pulse);
  }

  lemma LastRoundPoint(c: Curve<bool, bool, bool, bool>)
    requires c.Lawful() && c.hash(U64_MAX) == Some(true) && c.generator == true
    ensures c.Points([U64_MAX]) == [true] && c.Fold([true]) == true && AllHash(c, [U64_MAX])
    ensures c.Signed(1, [true]) == [true] && c.Multiple2(1, c.generator) == true
  {
    hide Curve.Lawful;
    assert [true][..0] == [];
    c.AddLaws(true, true, true);
    assert c.Fold([]) == c.zero && c.Fold([true]) == c.add(c.zero, true);
    assert c.Multiple(0, true) == c.zero && c.Multiple(1, true) == c.add(c.zero, true);
  }
}
