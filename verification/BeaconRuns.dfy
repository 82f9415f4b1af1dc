/** No round is ingested twice: what holds of the beacon pallet over every run. */
module BeaconRuns {
  import opened Outcomes
  import opened Saturating
  import opened Scale
  import opened Pairing
  import opened PulseMessages
  import opened Beacon

  /** The interval is not empty and has at most one round more than the limit. */
  predicate WellSized(p: Pulse, maxSigs: uint8) {
    p.start <= p.end && p.end - p.start + 1 <= maxSigs + 1
  }

  /** `later` starts after `earlier` ended and was accepted in a later block; only the last round can repeat. */
  predicate Follows(earlier: Dispatched, later: Dispatched) {
    && earlier.block < later.block
    && (earlier.pulse.end < later.pulse.start || (earlier.pulse.end == U64_MAX && later.pulse.start == U64_MAX))
  }

  /** Everything dispatched so far is well sized and in order, and storage remembers the last of it. */
  ghost predicate InOrder(verify: Verifier, maxSigs: uint8, s: BeaconState) {
    && (forall i :: 0 <= i < |s.dispatched| ==> WellSized(s.dispatched[i].pulse, maxSigs))
    && (forall i, j :: 0 <= i < j < |s.dispatched| ==> Follows(s.dispatched[i], s.dispatched[j]))
    && (forall i :: 0 <= i < |s.dispatched| ==> Recent(s, s.dispatched[i]))
    && (forall i :: 0 <= i < |s.dispatched| ==> Accepted(verify, s.dispatched[i]))
    && (s.dispatched == [] ==> s.nextRound == 0 && s.accumulation.None?)
    && (s.dispatched != [] ==>
          var last := s.dispatched[|s.dispatched| - 1];
          && s.accumulation == Some(last.pulse) && s.nextRound == SatAdd(last.pulse.end, 1))
  }

  /** A dispatched pulse lies before the next round, and in this block only if the block is used up. */
  predicate Recent(s: BeaconState, d: Dispatched) {
    && (d.pulse.end < s.nextRound || (d.pulse.end == U64_MAX && s.nextRound == U64_MAX))
    && d.block <= s.block && (d.block == s.block ==> s.didUpdate)
  }

  /** The key a pulse was dispatched under verified it. */
  predicate Accepted(verify: Verifier, d: Dispatched) {
    verify(d.key, d.pulse.signature, d.pulse.start, d.pulse.end).Success?
  }

  lemma SubmitInOrder(verify: Verifier, maxSigs: uint8, s: BeaconState, sub: Submission)
    requires InOrder(verify, maxSigs, s)
    ensures InOrder(verify, maxSigs, Next(verify, maxSigs, s, Submit(sub)))
  {
    var r := TrySubmit(verify, maxSigs, s, sub);
    if r.Success? {
      var s' := r.value;
      var d := s'.dispatched[|s.dispatched|];
      forall i | 0 <= i < |s.dispatched| ensures Follows(s.dispatched[i], d) && Recent(s', s.dispatched[i]) {
        assert Recent(s, s.dispatched[i]);
      }
      assert WellSized(d.pulse, maxSigs) && Recent(s', d) && Accepted(verify, d);
    }
  }

  lemma NextInOrder(verify: Verifier, maxSigs: uint8, s: BeaconState, e: Event)
    requires InOrder(verify, maxSigs, s)
    ensures InOrder(verify, maxSigs, Next(verify, maxSigs, s, e))
  {
    match e
    case Submit(sub) => SubmitInOrder(verify, maxSigs, s, sub);
    case SetConfig(_) =>
      var s' := Next(verify, maxSigs, s, e);
      forall i | 0 <= i < |s.dispatched| ensures Recent(s', s'.dispatched[i]) { assert Recent(s, s.dispatched[i]); }
    case EndOfBlock =>
      var s' := Next(verify, maxSigs, s, e);
      forall i | 0 <= i < |s.dispatched| ensures Recent(s', s'.dispatched[i]) { assert Recent(s, s.dispatched[i]); }
  }

  lemma {:induction false} AfterInOrder(verify: Verifier, maxSigs: uint8, s: BeaconState, events: seq<Event>)
    requires InOrder(verify, maxSigs, s)
    ensures InOrder(verify, maxSigs, After(verify, maxSigs, s, events))
    decreases |events|
  {
    hide InOrder, Next;
    if events != [] {
      NextInOrder(verify, maxSigs, s, events[0]);
      AfterInOrder(verify, maxSigs, Next(verify, maxSigs, s, events[0]), events[1..]);
    }
  }

  /**
   * Over every run, each dispatched interval, the only one included, is non-empty and at most one round over the
   * limit long; and once there is one, storage holds the last of them and the round after it.
   */
  lemma EveryIntervalSized(verify: Verifier, maxSigs: uint8, s: BeaconState, events: seq<Event>, i: nat)
    requires Start(s) && i < |After(verify, maxSigs, s, events).dispatched|
    ensures var s' := After(verify, maxSigs, s, events);
            var last := s'.dispatched[|s'.dispatched| - 1];
            && WellSized(s'.dispatched[i].pulse, maxSigs)
            && s'.accumulation == Some(last.pulse) && s'.nextRound == SatAdd(last.pulse.end, 1)
  {
    AfterInOrder(verify, maxSigs, s, events);
  }

  function Height(p: Pulse): int {
    p.end - p.start + 1
  }

  /** Everything about a submission but the length of its interval is in order. */
  predicate Eligible(verify: Verifier, s: BeaconState, sub: Submission) {
    && sub.unsigned && sub.authored && !s.didUpdate && s.config.Some? && s.nextRound <= sub.pulse.start
    && verify(s.config.value, sub.pulse.signature, sub.pulse.start, sub.pulse.end).Success?
  }

  /**
   * A submission is accepted exactly if it is unsigned, the block's author signed it, nothing was accepted in this
   * block, a key is set, it starts at or after the next round, has from one to `maxSigs + 1` rounds, and verifies
   * under that key. The documented limit is one round less.
   */
  lemma AcceptedIff(verify: Verifier, maxSigs: uint8, s: BeaconState, sub: Submission)
    ensures TrySubmit(verify, maxSigs, s, sub).Success? <==>
            && sub.unsigned && sub.authored && !s.didUpdate && s.config.Some? && s.nextRound <= sub.pulse.start
            && 0 < Height(sub.pulse) <= maxSigs + 1
            && verify(s.config.value, sub.pulse.signature, sub.pulse.start, sub.pulse.end).Success?
  {
  }

  /** An accepted submission is noted, dispatched under the key in force, uses up the block, moves the next round. */
  lemma AcceptedEffect(verify: Verifier, maxSigs: uint8, s: BeaconState, sub: Submission)
    requires TrySubmit(verify, maxSigs, s, sub).Success?
    ensures var s' := TrySubmit(verify, maxSigs, s, sub).value;
            && s'.nextRound == (if sub.pulse.end == U64_MAX then U64_MAX else sub.pulse.end + 1)
            && s'.accumulation == Some(sub.pulse) && s'.didUpdate
            && s'.config == s.config && s'.config.Some? && s'.block == s.block
            && s'.dispatched == s.dispatched + [Dispatched(sub.pulse, s.config.value, s.block)]
  {
  }

  /** Each refusal says why, the first reason that applies. */
  lemma RefusalReasons(verify: Verifier, maxSigs: uint8, s: BeaconState, sub: Submission)
    ensures var r, p := TrySubmit(verify, maxSigs, s, sub), sub.pulse;
            var open := sub.unsigned && sub.authored && !s.didUpdate && s.config.Some?;
            && (r == Failure(BadOrigin) <==> !sub.unsigned)
            && (r == Failure(BeaconError.InvalidSignature) <==> sub.unsigned && !sub.authored)
            && (r == Failure(SignatureAlreadyVerified) <==> sub.unsigned && sub.authored && s.didUpdate)
            && (r == Failure(BeaconConfigNotSet) <==> sub.unsigned && sub.authored && !s.didUpdate && s.config.None?)
            && (r == Failure(ZeroHeightProvided) <==> open && p.end < p.start)
            && (r == Failure(ExcessiveHeightProvided) <==> open && Height(p) > maxSigs + 1)
            && (r == Failure(StartExpired) <==> open && 0 < Height(p) <= maxSigs + 1 && p.start < s.nextRound)
  {
  }

  /** The pool's early check is exact: of submissions in order otherwise it drops those the call would refuse. */
  lemma StaleExactly(verify: Verifier, maxSigs: uint8, s: BeaconState, sub: Submission)
    requires sub.unsigned && sub.authored && !s.didUpdate && s.config.Some? && 0 < Height(sub.pulse) <= maxSigs + 1
    requires verify(s.config.value, sub.pulse.signature, sub.pulse.start, sub.pulse.end).Success?
    ensures StaleInPool(s, sub.pulse) <==> TrySubmit(verify, maxSigs, s, sub).Failure?
  {
  }

  /** One round too many, for every limit: `maxSigs + 1` rounds from any first round go in as the first submission. */
  lemma OneRoundOverTheLimit(verify: Verifier, maxSigs: uint8, s: BeaconState, sub: Submission)
    requires Start(s) && Eligible(verify, s, sub) && sub.pulse.end == sub.pulse.start + maxSigs
    ensures var s' := After(verify, maxSigs, s, [Submit(sub)]);
            |s'.dispatched| == 1 && s'.dispatched[0].pulse == sub.pulse && Height(sub.pulse) == maxSigs + 1
  {
    var s1 := Next(verify, maxSigs, s, Submit(sub));
    assert [Submit(sub)][1..] == [];
    assert After(verify, maxSigs, s1, []) == s1;
  }

  /**
   * Over every run of submissions, key changes and block ends the dispatched intervals are in strictly increasing
   * blocks, and disjoint and increasing up to the last round there is.
   */
  lemma NoRoundTwice(verify: Verifier, maxSigs: uint8, s: BeaconState, events: seq<Event>, i: nat, j: nat)
    requires Start(s) && i < j < |After(verify, maxSigs, s, events).dispatched|
    ensures var s' := After(verify, maxSigs, s, events);
            var a, b := s'.dispatched[i], s'.dispatched[j];
            a.block < b.block && (a.pulse.end < b.pulse.start <==> a.pulse.end < U64_MAX)
  {
    AfterInOrder(verify, maxSigs, s, events);
    var s' := After(verify, maxSigs, s, events);
    assert Follows(s'.dispatched[i], s'.dispatched[j]) && WellSized(s'.dispatched[j].pulse, maxSigs);
  }

  /** The last round can be ingested again and again: two blocks, the same submission. */
  lemma LastRoundRepeats(verify: Verifier, maxSigs: uint8, s: BeaconState, sub: Submission)
    requires Start(s) && s.config.Some? && sub.unsigned && sub.authored
    requires sub.pulse.start == sub.pulse.end == U64_MAX
    requires verify(s.config.value, sub.pulse.signature, U64_MAX, U64_MAX).Success?
    ensures var s' := After(verify, maxSigs, s, [Submit(sub), EndOfBlock, Submit(sub)]);
            |s'.dispatched| == 2 && s'.dispatched[0].pulse == s'.dispatched[1].pulse
  {
    var events := [Submit(sub), EndOfBlock, Submit(sub)];
    var s1 := Next(verify, maxSigs, s, events[0]);
    var s2 := Next(verify, maxSigs, s1, events[1]);
    var s3 := Next(verify, maxSigs, s2, events[2]);
    assert events[1..] == [EndOfBlock, Submit(sub)] && events[1..][1..] == [Submit(sub)];
    assert [Submit(sub)][1..] == [];
    assert After(verify, maxSigs, s2, [Submit(sub)]) == After(verify, maxSigs, s3, []) == s3;
    assert After(verify, maxSigs, s1, events[1..]) == s3;
  }

  // ---------- early invalidation ----------

  lemma {:induction false} NextRoundGrows(verify: Verifier, maxSigs: uint8, s: BeaconState, events: seq<Event>)
    ensures s.nextRound <= After(verify, maxSigs, s, events).nextRound
    decreases |events|
  {
    if events != [] {
      var s' := Next(verify, maxSigs, s, events[0]);
      assert s.nextRound <= s'.nextRound;
      NextRoundGrows(verify, maxSigs, s', events[1..]);
    }
  }

  /** A submission the pool drops as stale is refused by the call now and in every later state. */
  lemma StaleForever(verify: Verifier, maxSigs: uint8, s: BeaconState, events: seq<Event>, sub: Submission)
    requires StaleInPool(s, sub.pulse)
    ensures TrySubmit(verify, maxSigs, After(verify, maxSigs, s, events), sub).Failure?
  {
    NextRoundGrows(verify, maxSigs, s, events);
  }

  // ---------- consumers can check what they get ----------

  /** The pallet's verifier over a given curve. */
  function VerifierOf<G1(!new), G2(!new), L(!new), T(==, !new)>(c: Curve<G1, G2, L, T>): Verifier {
    (key: Bytes, asig: Bytes, start: uint64, end: uint64) => VerifyRounds(c, key, asig, start, end)
  }

  /** Every pulse ever dispatched, ending before the last round, authenticates under the key that accepted it. */
  lemma DispatchedPulsesAuthenticate<G1(!new), G2(!new), L(!new), T(!new)>(
      c: Curve<G1, G2, L, T>, maxSigs: uint8, s: BeaconState, events: seq<Event>, i: nat)
    requires c.Lawful() && Start(s) && i < |After(VerifierOf(c), maxSigs, s, events).dispatched|
    ensures var d := After(VerifierOf(c), maxSigs, s, events).dispatched[i];
            d.pulse.end < U64_MAX ==> Authenticates(c, d.pulse, d.key)
  {
    hide Curve.Lawful, VerifyRounds, Authenticates;
    AfterInOrder(VerifierOf(c), maxSigs, s, events);
    var d := After(VerifierOf(c), maxSigs, s, events).dispatched[i];
    assert Accepted(VerifierOf(c), d);
    if d.pulse.end < U64_MAX { ConsumerAgrees(c, d.pulse, d.key); }
  }

  /** And it signs the sum of the points of its rounds under that key, all of which hash. */
  lemma DispatchedPulsesSign<G1(!new), G2(!new), L(!new), T(!new)>(
      c: Curve<G1, G2, L, T>, maxSigs: uint8, s: BeaconState, events: seq<Event>, i: nat)
    requires c.Lawful() && Start(s) && i < |After(VerifierOf(c), maxSigs, s, events).dispatched|
    ensures var d := After(VerifierOf(c), maxSigs, s, events).dispatched[i];
            && Signs(c, d.key, d.pulse.signature, d.pulse.start, d.pulse.end)
            && forall round: uint64 :: d.pulse.start <= round <= d.pulse.end ==> c.hash(round).Some?
  {
    hide Curve.Lawful, VerifyRounds, Signs;
    AfterInOrder(VerifierOf(c), maxSigs, s, events);
    var d := After(VerifierOf(c), maxSigs, s, events).dispatched[i];
    assert Accepted(VerifierOf(c), d);
    ChainAcceptsIff(c, d.key, d.pulse.signature, d.pulse.start, d.pulse.end);
  }

  // ---------- where dispatched pulses come from ----------

  /** The key set last, or the one there was at the start. */
  function KeyAfter(key: Option<Bytes>, events: seq<Event>): Option<Bytes> {
    if events == [] then key
    else
      var e := events[|events| - 1];
      if e.SetConfig? then Some(e.key) else KeyAfter(key, events[..|events| - 1])
  }

  function BlocksEnded(events: seq<Event>): nat {
    if events == [] then 0
    else (if events[|events| - 1].EndOfBlock? then 1 else 0) + BlocksEnded(events[..|events| - 1])
  }

  /** Event `k` is an unsigned submission of the pulse by the block's author, in that block, under the key then set. */
  ghost predicate ComesFrom(s0: BeaconState, events: seq<Event>, k: nat, d: Dispatched) {
    && k < |events| && events[k].Submit?
    && events[k].submission.unsigned && events[k].submission.authored && events[k].submission.pulse == d.pulse
    && KeyAfter(s0.config, events[..k]) == Some(d.key) && d.block == s0.block + BlocksEnded(events[..k])
  }

  /** Each dispatched pulse comes from a submission of its own; key and block are as the events say. */
  ghost predicate Sourced(s0: BeaconState, events: seq<Event>, s: BeaconState, from: seq<nat>) {
    && |from| == |s.dispatched|
    && (forall i :: 0 <= i < |from| ==> ComesFrom(s0, events, from[i], s.dispatched[i]))
    && (forall i, j :: 0 <= i < j < |from| ==> from[i] < from[j])
    && s.config == KeyAfter(s0.config, events) && s.block == s0.block + BlocksEnded(events)
  }

  lemma {:induction false} AfterLast(verify: Verifier, maxSigs: uint8, s: BeaconState, events: seq<Event>, e: Event)
    ensures After(verify, maxSigs, s, events + [e]) == Next(verify, maxSigs, After(verify, maxSigs, s, events), e)
    decreases |events|
  {
    hide Next;
    if events == [] {
      assert [] + [e] == [e] && [e][1..] == [];
      assert After(verify, maxSigs, Next(verify, maxSigs, s, e), []) == Next(verify, maxSigs, s, e);
    } else {
      assert (events + [e])[1..] == events[1..] + [e];
      AfterLast(verify, maxSigs, Next(verify, maxSigs, s, events[0]), events[1..], e);
    }
  }

  lemma ComesFromStill(s0: BeaconState, events: seq<Event>, e: Event, k: nat, d: Dispatched)
    requires ComesFrom(s0, events, k, d)
    ensures ComesFrom(s0, events + [e], k, d)
  {
    assert (events + [e])[..k] == events[..k];
  }

  lemma SourcedMore(verify: Verifier, maxSigs: uint8, s0: BeaconState, events: seq<Event>, s: BeaconState,
                    from: seq<nat>, e: Event) returns (from': seq<nat>)
    requires Sourced(s0, events, s, from)
    ensures Sourced(s0, events + [e], Next(verify, maxSigs, s, e), from')
  {
    hide ComesFrom;
    var more, s' := events + [e], Next(verify, maxSigs, s, e);
    assert more[..|more| - 1] == events;
    forall i | 0 <= i < |from| ensures ComesFrom(s0, more, from[i], s.dispatched[i]) && from[i] < |events| {
      ComesFromStill(s0, events, e, from[i], s.dispatched[i]);
      Within(s0, events, from[i], s.dispatched[i]);
    }
    from' := from;
    if e.Submit? && TrySubmit(verify, maxSigs, s, e.submission).Success? {
      AcceptedIff(verify, maxSigs, s, e.submission);
      from' := from + [|events|];
      NewSource(s0, events, e, s'.dispatched[|s.dispatched|]);
    }
  }

  lemma Within(s0: BeaconState, events: seq<Event>, k: nat, d: Dispatched)
    requires ComesFrom(s0, events, k, d)
    ensures k < |events|
  {
  }

  lemma NewSource(s0: BeaconState, events: seq<Event>, e: Event, d: Dispatched)
    requires e.Submit? && e.submission.unsigned && e.submission.authored && e.submission.pulse == d.pulse
    requires KeyAfter(s0.config, events) == Some(d.key) && d.block == s0.block + BlocksEnded(events)
    ensures ComesFrom(s0, events + [e], |events|, d)
  {
    assert (events + [e])[..|events|] == events;
  }

  /**
   * Over every run each dispatched pulse comes from a submission event of its own, in order, that is unsigned and
   * signed by the block's author, under the key set last before it and in the block reached then; and the key in
   * storage is the one set last.
   */
  lemma {:induction false} PulsesComeFromAuthors(verify: Verifier, maxSigs: uint8, s: BeaconState, events: seq<Event>)
    returns (from: seq<nat>)
    requires Start(s)
    ensures Sourced(s, events, After(verify, maxSigs, s, events), from)
  {
    hide Sourced, Next;
    if events == [] {
      from := [];
      assert Sourced(s, [], s, []) by { NothingSourced(s); }
    } else {
      var rest, e := events[..|events| - 1], events[|events| - 1];
      assert events == rest + [e];
      from := PulsesComeFromAuthors(verify, maxSigs, s, rest);
      from := SourcedMore(verify, maxSigs, s, rest, After(verify, maxSigs, s, rest), from, e);
      AfterLast(verify, maxSigs, s, rest, e);
    }
  }

  lemma NothingSourced(s: BeaconState)
    requires Start(s)
    ensures Sourced(s, [], s, [])
  {
  }
}
