/**
 * Signature verification over any pair of groups with a bilinear pairing. The groups, the hash to the first of
 * them and the encodings are parameters; what is used of them is stated as laws.
 */
module Pairing {
  import opened Outcomes
  import opened Saturating
  import opened Scale

  datatype Curve<!G1(!new), !G2(!new), !Loop(!new), !GT(==, !new)> = Curve(
    zero: G1, add: (G1, G1) -> G1, negate: G1 -> G1,
    generator: G2, add2: (G2, G2) -> G2,
    one: GT, times: (GT, GT) -> GT, invert: GT -> GT,
    pair: (G1, G2) -> GT,
    millerLoop: (G1, G2, G1, G2) -> Loop,
    finalExponentiation: Loop -> Option<GT>,
    hash: uint64 -> Option<G1>,
    encode: G1 -> Bytes, decode: Bytes -> Option<G1>, decode2: Bytes -> Option<G2>
  ) {
    ghost predicate AddLaw(a: G1, b: G1, d: G1) {
      && add(a, b) == add(b, a) && add(add(a, b), d) == add(a, add(b, d))
      && add(zero, a) == a && add(a, negate(a)) == zero
    }

    ghost predicate TimesLaw(a: GT, b: GT, d: GT) {
      && times(a, b) == times(b, a) && times(times(a, b), d) == times(a, times(b, d))
      && times(one, a) == a && times(a, invert(a)) == one
    }

    ghost predicate PairLaw(a: G1, b: G1, q: G2, r: G2) {
      && pair(add(a, b), q) == times(pair(a, q), pair(b, q))
      && pair(a, add2(q, r)) == times(pair(a, q), pair(a, r))
    }

    /** One loop and one exponentiation give the product of two pairings. */
    ghost predicate ProductLaw(a: G1, q: G2, b: G1, r: G2) {
      finalExponentiation(millerLoop(a, q, b, r)) == Some(times(pair(a, q), pair(b, r)))
    }

    /** Encoded points are 48 bytes and decode to themselves. */
    ghost predicate EncodingLaw(a: G1) {
      decode(encode(a)) == Some(a) && |encode(a)| == 48
    }

    /** Two commutative groups, a bilinear pairing between them computed in one loop, and faithful encodings. */
    ghost predicate Lawful() {
      && (forall a, b, d :: AddLaw(a, b, d))
      && (forall a, b, d :: TimesLaw(a, b, d))
      && (forall a, b, q, r :: PairLaw(a, b, q, r))
      && (forall a, q, b, r :: ProductLaw(a, q, b, r))
      && (forall a :: EncodingLaw(a))
    }

    // ---------- verification ----------

    /** `fast_pairing_opt`. */
    predicate FastPairing(signature: G1, q: G2, r: G1, s: G2) {
      var e := finalExponentiation(millerLoop(negate(signature), q, r, s));
      e.Some? && e.value == one
    }

    /** `QuicknetVerifier::verify` on encoded key, signature and message. */
    function Verify(key: Bytes, signature: Bytes, message: Bytes): Result<(), CryptoError> {
      match decode2(key)
      case None => Failure(DeserializeG2Failure)
      case Some(pk) =>
        match decode(signature)
        case None => Failure(DeserializeG1Failure)
        case Some(sig) =>
          match decode(message)
          case None => Failure(DeserializeG1Failure)
          case Some(msg) => if FastPairing(sig, generator, msg, pk) then Success(()) else Failure(InvalidSignature)
    }

    // ---------- aggregation ----------

    /** The point of a round, or the zero point where hashing fails. */
    function Point(round: uint64): G1 {
      var h := hash(round);
      if h.Some? then h.value else zero
    }

    /** Points added up from the left, starting at zero. */
    function Fold(points: seq<G1>): G1 {
      if points == [] then zero else add(Fold(points[..|points| - 1]), points[|points| - 1])
    }

    function Points(rounds: seq<uint64>): seq<G1> {
      seq(|rounds|, i requires 0 <= i < |rounds| => Point(rounds[i]))
    }

    /** `n` copies of a point. */
    function Multiple(n: nat, a: G1): G1 {
      if n == 0 then zero else add(Multiple(n - 1, a), a)
    }

    /** `n` copies of a key, at least one. */
    function Multiple2(n: nat, q: G2): G2
      requires n > 0
    {
      if n == 1 then q else add2(Multiple2(n - 1, q), q)
    }

    // ---------- the laws, one instance at a time ----------

    lemma AddLaws(a: G1, b: G1, d: G1)
      requires Lawful()
      ensures add(a, b) == add(b, a) && add(add(a, b), d) == add(a, add(b, d))
      ensures add(zero, a) == a && add(a, negate(a)) == zero
    {
      assert AddLaw(a, b, d);
    }

    lemma TimesLaws(a: GT, b: GT, d: GT)
      requires Lawful()
      ensures times(a, b) == times(b, a) && times(times(a, b), d) == times(a, times(b, d))
      ensures times(one, a) == a && times(a, invert(a)) == one
    {
      assert TimesLaw(a, b, d);
    }

    lemma PairLaws(a: G1, b: G1, q: G2, r: G2)
      requires Lawful()
      ensures pair(add(a, b), q) == times(pair(a, q), pair(b, q))
      ensures pair(a, add2(q, r)) == times(pair(a, q), pair(a, r))
    {
      assert PairLaw(a, b, q, r);
    }

    lemma EncodingLaws(a: G1)
      requires Lawful()
      ensures decode(encode(a)) == Some(a) && |encode(a)| == 48
    {
      assert EncodingLaw(a);
    }

    /** The last two summands may change places. */
    lemma SwapLast(a: G1, b: G1, d: G1)
      requires Lawful()
      ensures add(add(a, b), d) == add(add(a, d), b)
    {
      hide Lawful;
      AddLaws(a, b, d);
      AddLaws(a, d, b);
      AddLaws(b, d, d);
    }

    lemma Cancel(x: GT, y: GT)
      requires Lawful()
      ensures times(x, y) == x ==> y == one
      ensures times(x, y) == one ==> y == invert(x)
    {
      hide Lawful;
      var i := invert(x);
      TimesLaws(x, i, y);
      TimesLaws(i, x, y);
      TimesLaws(y, i, x);
      TimesLaws(i, one, y);
    }

    /** Pairing with the zero point gives the unit. */
    lemma PairZero(q: G2)
      requires Lawful()
      ensures pair(zero, q) == one
    {
      hide Lawful;
      AddLaws(zero, zero, zero);
      PairLaws(zero, zero, q, q);
      Cancel(pair(zero, q), pair(zero, q));
    }

    lemma PairNegate(a: G1, q: G2)
      requires Lawful()
      ensures pair(negate(a), q) == invert(pair(a, q))
    {
      hide Lawful;
      AddLaws(a, negate(a), a);
      PairLaws(a, negate(a), q, q);
      PairZero(q);
      Cancel(pair(a, q), pair(negate(a), q));
    }

    /** Equal elements are exactly those whose quotient is the unit. */
    lemma UnitQuotient(x: GT, y: GT)
      requires Lawful()
      ensures times(invert(x), y) == one <==> x == y
    {
      hide Lawful;
      TimesLaws(x, invert(x), x);
      Cancel(invert(x), y);
      Cancel(invert(x), x);
    }

    // ---------- what verification means ----------

    /** The single-product check accepts exactly when the two pairings agree. */
    lemma FastPairingIff(sig: G1, q: G2, msg: G1, pk: G2)
      requires Lawful()
      ensures FastPairing(sig, q, msg, pk) <==> pair(sig, q) == pair(msg, pk)
    {
      PairNegate(sig, q);
      UnitQuotient(pair(sig, q), pair(msg, pk));
      assert ProductLaw(negate(sig), q, msg, pk);
    }

    /**
     * Verification succeeds exactly if key, signature and message decode and the signature paired with the generator
     * is the message paired with the key. Otherwise it tells a bad key from a bad point from a bad signature.
     */
    lemma VerifyIff(key: Bytes, signature: Bytes, message: Bytes)
      requires Lawful()
      ensures var r, pk, sig, msg := Verify(key, signature, message), decode2(key), decode(signature), decode(message);
              && (r.Success? <==>
                    && pk.Some? && sig.Some? && msg.Some?
                    && pair(sig.value, generator) == pair(msg.value, pk.value))
              && (r == Failure(DeserializeG2Failure) <==> pk.None?)
              && (r == Failure(DeserializeG1Failure) <==> pk.Some? && (sig.None? || msg.None?))
    {
      hide Lawful, FastPairing;
      var pk, sig, msg := decode2(key), decode(signature), decode(message);
      if pk.Some? && sig.Some? && msg.Some? { FastPairingIff(sig.value, generator, msg.value, pk.value); }
    }

    // ---------- honest aggregates ----------

    /** A multiple of a sum is the sum of the multiples. */
    lemma {:induction false} MultipleOfSum(n: nat, a: G1, b: G1)
      requires Lawful()
      ensures Multiple(n, add(a, b)) == add(Multiple(n, a), Multiple(n, b))
    {
      hide Lawful;
      if n == 0 {
        AddLaws(zero, zero, zero);
      } else {
        MultipleOfSum(n - 1, a, b);
        var x, y := Multiple(n - 1, a), Multiple(n - 1, b);
        AddLaws(add(x, y), a, b);
        SwapLast(x, y, a);
        AddLaws(add(x, a), y, b);
      }
    }

    lemma {:induction false} MultipleOfZero(n: nat)
      requires Lawful()
      ensures Multiple(n, zero) == zero
    {
      if n > 0 {
        MultipleOfZero(n - 1);
        AddLaws(zero, zero, zero);
      }
    }

    /** What a secret key makes of each point. */
    function Signed(key: nat, points: seq<G1>): seq<G1> {
      seq(|points|, i requires 0 <= i < |points| => Multiple(key, points[i]))
    }

    /** Adding up signatures is signing the sum. */
    lemma {:induction false} FoldSigned(key: nat, points: seq<G1>)
      requires Lawful()
      ensures Fold(Signed(key, points)) == Multiple(key, Fold(points))
    {
      hide Lawful;
      if points == [] {
        MultipleOfZero(key);
      } else {
        var n := |points| - 1;
        FoldSigned(key, points[..n]);
        assert Signed(key, points)[..n] == Signed(key, points[..n]);
        MultipleOfSum(key, Fold(points[..n]), points[n]);
      }
    }

    /** Taking any summand out of a sum. */
    lemma {:induction false} FoldRemove(points: seq<G1>, i: nat)
      requires Lawful() && i < |points|
      ensures Fold(points) == add(Fold(points[..i] + points[i + 1..]), points[i])
    {
      hide Lawful;
      var n := |points| - 1;
      var rest := points[..i] + points[i + 1..];
      if i == n {
        assert rest == points[..n];
      } else {
        FoldRemove(points[..n], i);
        assert rest[..n - 1] == points[..n][..i] + points[..n][i + 1..];
        assert rest[n - 1] == points[n];
        SwapLast(Fold(rest[..n - 1]), points[i], points[n]);
      }
    }

    /** The order of the summands does not matter. */
    lemma {:induction false} FoldAnyOrder(a: seq<G1>, b: seq<G1>)
      requires Lawful() && multiset(a) == multiset(b)
      ensures Fold(a) == Fold(b)
      decreases |a|
    {
      hide Lawful;
      if a == [] {
        assert |b| == |multiset(b)| == 0;
      } else {
        var i := LastElsewhere(a, b);
        FoldAnyOrder(a[..|a| - 1], b[..i] + b[i + 1..]);
        FoldRemove(b, i);
      }
    }

    /** A key moves from one side of the pairing to the other. */
    lemma {:induction false} KeyMoves(key: nat, a: G1, q: G2)
      requires Lawful() && key > 0
      ensures pair(Multiple(key, a), q) == pair(a, Multiple2(key, q))
    {
      hide Lawful;
      if key == 1 {
        AddLaws(a, a, a);
        assert Multiple(0, a) == zero;
      } else {
        KeyMoves(key - 1, a, q);
        PairLaws(Multiple(key - 1, a), a, q, q);
        PairLaws(a, a, Multiple2(key - 1, q), q);
      }
    }

    /**
     * Honest aggregates verify: signatures by one key on the rounds of a set of points, added up in any order,
     * pass the check for the sum of those points under the public key.
     */
    lemma HonestAggregateVerifies(key: nat, points: seq<G1>, shuffled: seq<G1>)
      requires Lawful() && key > 0 && multiset(shuffled) == multiset(points)
      ensures FastPairing(Fold(Signed(key, shuffled)), generator, Fold(points), Multiple2(key, generator))
    {
      hide Lawful;
      FoldSigned(key, shuffled);
      FoldAnyOrder(shuffled, points);
      KeyMoves(key, Fold(points), generator);
      FastPairingIff(Fold(Signed(key, shuffled)), generator, Fold(points), Multiple2(key, generator));
    }
  }

  /** Where the last element of a sequence is in a reordering of it, and that the others are reorderings, too. */
  lemma LastElsewhere<T>(a: seq<T>, b: seq<T>) returns (i: nat)
    requires a != [] && multiset(a) == multiset(b)
    ensures i < |b| && b[i] == a[|a| - 1] && multiset(a[..|a| - 1]) == multiset(b[..i] + b[i + 1..])
  {
    var n := |a| - 1;
    assert a[n] in multiset(b);
    i :| 0 <= i < |b| && b[i] == a[n];
    WithoutOne(a, n);
    WithoutOne(b, i);
    assert a[..n] + a[n + 1..] == a[..n];
  }

  lemma WithoutOne<T>(s: seq<T>, i: nat)
    requires i < |s|
    ensures multiset(s[..i] + s[i + 1..]) == multiset(s) - multiset{s[i]}
  {
    assert s == s[..i] + ([s[i]] + s[i + 1..]);
  }

  datatype CryptoError = DeserializeG1Failure | DeserializeG2Failure | InvalidSignature

  // ---------- the laws are consistent ----------

  function Xor(a: bool, b: bool): bool {
    a != b
  }

  /** The two-element groups with conjunction as the pairing. */
  function Parity(): Curve<bool, bool, bool, bool> {
    Curve(false, Xor, (a: bool) => a,
          true, Xor,
          false, Xor, (a: bool) => a,
          (a: bool, q: bool) => a && q,
          (a: bool, q: bool, b: bool, r: bool) => Xor(a && q, b && r),
          (x: bool) => Some(x),
          (r: uint64) => Some(r % 2 == 1),
          (a: bool) => seq(48, i => if a then 1 else 0),
          (b: Bytes) => if b == [] then None else Some(b[0] == 1),
          (b: Bytes) => if b == [] then None else Some(b[0] == 1))
  }

  lemma ParityInstance(a: bool, b: bool, d: bool, e: bool)
    ensures var c := Parity();
            && c.add(a, b) == Xor(a, b) && c.negate(a) == a && !c.zero && c.add2(a, b) == Xor(a, b)
            && c.times(a, b) == Xor(a, b) && c.invert(a) == a && !c.one && c.pair(a, b) == (a && b)
            && c.finalExponentiation(c.millerLoop(a, b, d, e)) == Some(Xor(a && b, d && e))
  {
  }

  lemma ParityAdds(a: bool, b: bool, d: bool)
    ensures var c := Parity();
            && c.add(a, b) == c.add(b, a) && c.add(c.add(a, b), d) == c.add(a, c.add(b, d))
            && c.add(c.zero, a) == a && c.add(a, c.negate(a)) == c.zero
    ensures var c := Parity();
            && c.times(a, b) == c.times(b, a) && c.times(c.times(a, b), d) == c.times(a, c.times(b, d))
            && c.times(c.one, a) == a && c.times(a, c.invert(a)) == c.one
  {
    hide Parity;
    ParityInstance(a, b, a, b);
    ParityInstance(b, a, a, b);
    ParityInstance(b, d, a, b);
    ParityInstance(Xor(a, b), d, a, b);
    ParityInstance(a, Xor(b, d), a, b);
    ParityInstance(false, a, a, b);
    ParityInstance(a, a, a, b);
  }

  lemma ParityMultiplies(a: bool, b: bool, q: bool, r: bool)
    ensures var c := Parity();
            && c.pair(c.add(a, b), q) == c.times(c.pair(a, q), c.pair(b, q))
            && c.pair(a, c.add2(q, r)) == c.times(c.pair(a, q), c.pair(a, r))
            && c.finalExponentiation(c.millerLoop(a, q, b, r)) == Some(c.times(c.pair(a, q), c.pair(b, r)))
  {
    hide Parity;
    ParityInstance(a, b, a, b);
    ParityInstance(q, r, a, b);
    ParityInstance(Xor(a, b), q, a, b);
    ParityInstance(a, q, b, r);
    ParityInstance(b, q, a, b);
    ParityInstance(b, r, a, b);
    ParityInstance(a, r, a, b);
    ParityInstance(a, Xor(q, r), a, b);
    ParityInstance(a && q, b && q, a, b);
    ParityInstance(a && q, a && r, a, b);
    ParityInstance(a && q, b && r, a, b);
  }

  lemma ParityEncodes(a: bool)
    ensures Parity().EncodingLaw(a)
  {
  }

  /** So every result above about lawful curves says something: there is one whose pairing is not constant. */
  lemma ParityIsLawful()
    ensures Parity().Lawful() && Parity().pair(true, true) != Parity().one
  {
    hide Parity;
    var c := Parity();
    forall a, b, d ensures c.AddLaw(a, b, d) && c.TimesLaw(a, b, d) { ParityAdds(a, b, d); }
    forall a, b, q, r ensures c.PairLaw(a, b, q, r) && c.ProductLaw(a, q, b, r) { ParityMultiplies(a, b, q, r); }
    forall a ensures c.EncodingLaw(a) { ParityEncodes(a); }
    ParityInstance(true, true, true, true);
  }
}
