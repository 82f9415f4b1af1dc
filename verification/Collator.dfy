/** The collator's side: the pulse queue, the finality gadget and the submission worker. */
module Collator {
  import opened Outcomes
  import opened Saturating
  import opened Scale

  datatype CanonicalPulse = CanonicalPulse(round: uint64, signature: Bytes)

  // ---------- the queue ----------

  /** How a pulse left the queue. */
  datatype Departure = Evicted(pulse: CanonicalPulse) | Consumed(pulse: CanonicalPulse)

  /** Pulses waiting, pulses gone in the order they went, and all pulses ever received. */
  datatype Queue = Queue(waiting: seq<CanonicalPulse>, gone: seq<Departure>, received: seq<CanonicalPulse>)

  /** A new pulse joins at the back; a full queue first drops its front. */
  function Push(q: Queue, capacity: nat, p: CanonicalPulse): Queue {
    var full := |q.waiting| == capacity && q.waiting != [];
    Queue((if full then q.waiting[1..] else q.waiting) + [p],
          if full then q.gone + [Evicted(q.waiting[0])] else q.gone,
          q.received + [p])
  }

  function AsConsumed(ps: seq<CanonicalPulse>): seq<Departure> {
    seq(|ps|, i requires 0 <= i < |ps| => Consumed(ps[i]))
  }

  /** Take up to `n` pulses off the front. */
  function Drop(q: Queue, n: nat): Queue {
    var k := Min(n, |q.waiting|);
    q.(waiting := q.waiting[k..], gone := q.gone + AsConsumed(q.waiting[..k]))
  }

  class DrandReceiver {
    const capacity: nat
    var pulses: seq<CanonicalPulse>
    ghost var gone: seq<Departure>
    ghost var received: seq<CanonicalPulse>

    ghost function Contents(): Queue
      reads this
    {
      Queue(pulses, gone, received)
    }

    constructor (capacity: nat)
      ensures this.capacity == capacity && Contents() == Queue([], [], [])
    {
      this.capacity := capacity;
      pulses, gone, received := [], [], [];
    }

    method Receive(p: CanonicalPulse)
      modifies this
      ensures Contents() == Push(old(Contents()), capacity, p)
    {
      if |pulses| == capacity {
        if pulses != [] {
          gone := gone + [Evicted(pulses[0])];
          pulses := pulses[1..];
        }
      }
      pulses := pulses + [p];
      received := received + [p];
    }

    method Consume(n: nat) returns (out: seq<CanonicalPulse>)
      modifies this
      ensures Contents() == Drop(old(Contents()), n)
      ensures out == old(pulses)[..Min(n, |old(pulses)|)]
    {
      out := [];
      var i := 0;
      while i < n
        invariant 0 <= i <= n && received == old(received)
        invariant var k := Min(i, |old(pulses)|);
                  && out == old(pulses)[..k] && pulses == old(pulses)[k..]
                  && gone == old(gone) + AsConsumed(old(pulses)[..k])
      {
        if pulses != [] {
          assert old(pulses)[..i + 1] == old(pulses)[..i] + [pulses[0]];
          assert AsConsumed(old(pulses)[..i + 1]) == AsConsumed(old(pulses)[..i]) + [Consumed(pulses[0])];
          gone := gone + [Consumed(pulses[0])];
          out := out + [pulses[0]];
          pulses := pulses[1..];
        }
        i := i + 1;
      }
    }

    method Read() returns (out: seq<CanonicalPulse>)
      ensures out == pulses
    {
      out := pulses;
    }
  }

  // ---------- the worker ----------

  datatype GadgetError = NoAuthorityKeys | KeystoreError | RuntimeApiError | TransactionSubmissionFailed

  /** What the keystore answers when asked to sign. */
  datatype Signing = Signed | SigningFails | KeyMissing

  /** What the worker meets: its key, the best block, and how signing, building and the pool turn out. */
  datatype Env = Env(hasKey: bool, best: nat, signing: Signing, builds: bool, poolTakes: bool)

  /** Nothing stands in the way of a submission. */
  predicate Works(env: Env) {
    env.hasKey && env.signing.Signed? && env.builds && env.poolTakes
  }

  /** A transaction the pool took: at which best block, with which aggregate, for which rounds. */
  datatype PoolEntry = PoolEntry(block: nat, asig: Bytes, start: uint64, end: uint64)

  datatype Worker = Worker(lastSubmitted: Option<nat>, pool: seq<PoolEntry>)

  datatype Submitted = Submitted(worker: Worker, result: Result<(), GadgetError>)

  /** `submit_pulse`: once per best block; only a refusal by the pool frees the block again. */
  function SubmitPulse(w: Worker, env: Env, asig: Bytes, start: uint64, end: uint64): Submitted {
    if !env.hasKey then Submitted(w, Failure(NoAuthorityKeys))
    else if w.lastSubmitted == Some(env.best) then Submitted(w, Success(()))
    else
      var marked := w.(lastSubmitted := Some(env.best));
      if env.signing.SigningFails? then Submitted(marked, Failure(KeystoreError))
      else if env.signing.KeyMissing? then Submitted(marked, Failure(NoAuthorityKeys))
      else if !env.builds then Submitted(marked, Failure(RuntimeApiError))
      else if !env.poolTakes then Submitted(w.(lastSubmitted := None), Failure(TransactionSubmissionFailed))
      else Submitted(marked.(pool := w.pool + [PoolEntry(env.best, asig, start, end)]), Success(()))
  }

  class PulseWorker {
    var lastSubmittedBlock: Option<nat>
    var pool: seq<PoolEntry>

    function State(): Worker
      reads this
    {
      Worker(lastSubmittedBlock, pool)
    }

    constructor ()
      ensures State() == Worker(None, [])
    {
      lastSubmittedBlock, pool := None, [];
    }

    method Submit(env: Env, asig: Bytes, start: uint64, end: uint64) returns (r: Result<(), GadgetError>)
      modifies this
      ensures Submitted(State(), r) == SubmitPulse(old(State()), env, asig, start, end)
    {
      if !env.hasKey { return Failure(NoAuthorityKeys); }
      if lastSubmittedBlock.Some? && lastSubmittedBlock.value == env.best { return Success(()); }
      lastSubmittedBlock := Some(env.best);
      if env.signing == SigningFails { return Failure(KeystoreError); }
      if env.signing == KeyMissing { return Failure(NoAuthorityKeys); }
      if !env.builds { return Failure(RuntimeApiError); }
      if !env.poolTakes {
        lastSubmittedBlock := None;
        return Failure(TransactionSubmissionFailed);
      }
      pool := pool + [PoolEntry(env.best, asig, start, end)];
      return Success(());
    }
  }

  // ---------- the gadget ----------

  /** The latest pulse of a batch that is not behind: filter, reverse, take one. */
  function LatestFresh(batch: seq<CanonicalPulse>, next: uint64): (r: Option<CanonicalPulse>)
    ensures r.Some? ==> r.value in batch && r.value.round >= next
    ensures r.Some? ==> exists i :: 0 <= i < |batch| && batch[i] == r.value &&
                          forall j :: i < j < |batch| ==> batch[j].round < next
    ensures r.None? ==> forall p :: p in batch ==> p.round < next
  {
    if batch == [] then None
    else if batch[|batch| - 1].round >= next then Some(batch[|batch| - 1])
    else
      assert forall p :: p in batch ==> p in batch[..|batch| - 1] || p == batch[|batch| - 1];
      LatestFresh(batch[..|batch| - 1], next)
  }

  /** Sums the signatures that decode; the groups are not part of this module. */
  type Aggregation = seq<Bytes> -> Bytes

  /** A submission that came back without error: its round and the runtime's next round when it was chosen. */
  datatype Done = Done(round: uint64, runtimeRound: uint64)

  datatype Node = Node(queue: Queue, nextRound: uint64, worker: Worker, done: seq<Done>)

  function Max(a: uint64, b: uint64): uint64 {
    if a < b then b else a
  }

  /** `handle_finality_notification`, with what the runtime answers at the best block. */
  function HandleFinality(aggregate: Aggregation, n: Node, runtimeRound: uint64, maxRounds: uint8, env: Env): Node {
    var batch := n.queue.waiting[..Min(maxRounds, |n.queue.waiting|)];
    var queue := Drop(n.queue, maxRounds);
    match LatestFresh(batch, Max(runtimeRound, n.nextRound))
    case None => n.(queue := queue)
    case Some(p) =>
      var sub := SubmitPulse(n.worker, env, aggregate([p.signature]), p.round, p.round);
      if sub.result.Failure? then n.(queue := queue, worker := sub.worker)
      else Node(queue, WrapAdd64(p.round, 1), sub.worker, n.done + [Done(p.round, runtimeRound)])
  }

  class PulseFinalizationGadget {
    const aggregate: Aggregation
    const receiver: DrandReceiver
    const worker: PulseWorker
    var nextRound: uint64
    ghost var done: seq<Done>

    ghost function View(): Node
      reads this, receiver, worker
    {
      Node(receiver.Contents(), nextRound, worker.State(), done)
    }

    constructor (aggregate: Aggregation, receiver: DrandReceiver, worker: PulseWorker)
      ensures this.aggregate == aggregate && this.receiver == receiver && this.worker == worker
      ensures nextRound == 0 && done == []
    {
      this.aggregate, this.receiver, this.worker, nextRound, done := aggregate, receiver, worker, 0, [];
    }

    /** One notification at a time: the submission lock is held throughout. */
    method HandleFinalityNotification(runtimeRound: uint64, maxRounds: uint8, env: Env)
      returns (r: Result<(), GadgetError>)
      modifies this, receiver, worker
      ensures View() == HandleFinality(aggregate, old(View()), runtimeRound, maxRounds, env)
      ensures var batch := old(receiver.pulses)[..Min(maxRounds, |old(receiver.pulses)|)];
              var latest := LatestFresh(batch, Max(runtimeRound, old(nextRound)));
              r == if latest.None? then Success(())
                   else SubmitPulse(old(worker.State()), env, aggregate([latest.value.signature]),
                                    latest.value.round, latest.value.round).result
    {
      var next := if runtimeRound < nextRound then nextRound else runtimeRound;
      var batch := receiver.Consume(maxRounds);
      var latest := LatestFresh(batch, next);
      if latest.None? { return Success(()); }
      var round := latest.value.round;
      var asig := aggregate([latest.value.signature]);
      r := worker.Submit(env, asig, round, round);
      if r.Failure? { return; }
      nextRound := WrapAdd64(round, 1);
      done := done + [Done(round, runtimeRound)];
    }
  }
}
