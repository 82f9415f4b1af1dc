/** What holds of the collator over every interleaving of arrivals and finality notifications. */
module CollatorRuns {
  import opened Outcomes
  import opened Saturating
  import opened Scale
  import opened Collator

  datatype Event =
    | Arrive(pulse: CanonicalPulse)
    | Finalize(runtimeRound: uint64, maxRounds: uint8, env: Env)

  function Next(aggregate: Aggregation, n: Node, capacity: nat, e: Event): Node {
    match e
    case Arrive(p) => n.(queue := Push(n.queue, capacity, p))
    case Finalize(runtimeRound, maxRounds, env) => HandleFinality(aggregate, n, runtimeRound, maxRounds, env)
  }

  function After(aggregate: Aggregation, n: Node, capacity: nat, events: seq<Event>): Node
    decreases |events|
  {
    if events == [] then n else After(aggregate, Next(aggregate, n, capacity, events[0]), capacity, events[1..])
  }

  predicate Start(n: Node) {
    && n.queue.waiting == [] && n.queue.gone == [] && n.queue.received == []
    && n.nextRound == 0 && n.worker.lastSubmitted.None? && n.worker.pool == [] && n.done == []
  }

  // ---------- the queue loses nothing silently ----------

  function Pulses(gone: seq<Departure>): seq<CanonicalPulse> {
    seq(|gone|, i requires 0 <= i < |gone| => gone[i].pulse)
  }

  /** Every pulse received is gone or waiting, once, in the order of arrival. */
  ghost predicate Accounted(q: Queue) {
    q.received == Pulses(q.gone) + q.waiting
  }

  ghost predicate Bounded(q: Queue, capacity: nat) {
    capacity >= 1 ==> |q.waiting| <= capacity
  }

  lemma PulsesAppend(a: seq<Departure>, b: seq<Departure>)
    ensures Pulses(a + b) == Pulses(a) + Pulses(b)
  {
  }

  lemma OneDeparture(d: Departure)
    ensures Pulses([d]) == [d.pulse]
  {
  }

  lemma PushAccounted(q: Queue, capacity: nat, p: CanonicalPulse)
    requires Accounted(q) && Bounded(q, capacity)
    ensures Accounted(Push(q, capacity, p)) && Bounded(Push(q, capacity, p), capacity)
  {
    hide Pulses;
    if |q.waiting| == capacity && q.waiting != [] {
      var first := q.waiting[0];
      PulsesAppend(q.gone, [Evicted(first)]);
      assert Pulses([Evicted(first)]) == [first] by { OneDeparture(Evicted(first)); }
      assert q.received + [p] == Pulses(q.gone) + [first] + (q.waiting[1..] + [p]);
    } else {
      assert q.received + [p] == Pulses(q.gone) + (q.waiting + [p]);
    }
  }

  lemma DropAccounted(q: Queue, capacity: nat, n: nat)
    requires Accounted(q) && Bounded(q, capacity)
    ensures Accounted(Drop(q, n)) && Bounded(Drop(q, n), capacity)
  {
    var k := Min(n, |q.waiting|);
    PulsesAppend(q.gone, AsConsumed(q.waiting[..k]));
    assert Pulses(AsConsumed(q.waiting[..k])) == q.waiting[..k];
    assert q.waiting == q.waiting[..k] + q.waiting[k..];
  }

  lemma {:induction false} AlwaysAccounted(aggregate: Aggregation, n: Node, capacity: nat, events: seq<Event>)
    requires Accounted(n.queue) && Bounded(n.queue, capacity)
    ensures Accounted(After(aggregate, n, capacity, events).queue)
    ensures Bounded(After(aggregate, n, capacity, events).queue, capacity)
    decreases |events|
  {
    hide Accounted, Bounded, Push, Drop, SubmitPulse;
    if events != [] {
      match events[0] {
        case Arrive(p) => PushAccounted(n.queue, capacity, p);
        case Finalize(_, maxRounds, _) => DropAccounted(n.queue, capacity, maxRounds);
      }
      AlwaysAccounted(aggregate, Next(aggregate, n, capacity, events[0]), capacity, events[1..]);
    }
  }

  /** A queue of no capacity is not bounded at all: nothing is ever dropped from it. */
  lemma ZeroCapacityIsUnbounded(q: Queue, p: CanonicalPulse)
    ensures |Push(q, 0, p).waiting| == |q.waiting| + 1
  {
  }

  // ---------- answered submissions ----------

  /** Later submissions are for later rounds, unless the last round there is came before. */
  ghost predicate RoundsRise(done: seq<Done>) {
    && (forall i :: 0 <= i < |done| ==> done[i].round >= done[i].runtimeRound)
    && (forall i :: 0 < i < |done| ==> (done[i - 1].round < done[i].round <==> done[i - 1].round < U64_MAX))
  }

  /** The local next round is the one after the last submission. */
  predicate Local(n: Node) {
    n.nextRound == if n.done == [] then 0 else WrapAdd64(n.done[|n.done| - 1].round, 1)
  }

  ghost predicate Rising(n: Node) {
    RoundsRise(n.done) && Local(n)
  }

  lemma FinalizeRising(aggregate: Aggregation, n: Node, runtimeRound: uint64, maxRounds: uint8, env: Env)
    requires Rising(n)
    ensures Rising(HandleFinality(aggregate, n, runtimeRound, maxRounds, env))
  {
    hide Drop, SubmitPulse, LatestFresh;
    var n' := HandleFinality(aggregate, n, runtimeRound, maxRounds, env);
    if n'.done != n.done && n.done != [] {
      var last := n.done[|n.done| - 1].round;
      if last < U64_MAX { assert WrapAdd64(last, 1) == last + 1; }
    }
  }

  lemma {:induction false} AlwaysRising(aggregate: Aggregation, n: Node, capacity: nat, events: seq<Event>)
    requires Rising(n)
    ensures Rising(After(aggregate, n, capacity, events))
    decreases |events|
  {
    hide Rising, HandleFinality, Push;
    if events != [] {
      match events[0] {
        case Arrive(p) => SameRising(n, Next(aggregate, n, capacity, events[0]));
        case Finalize(runtimeRound, maxRounds, env) => FinalizeRising(aggregate, n, runtimeRound, maxRounds, env);
      }
      AlwaysRising(aggregate, Next(aggregate, n, capacity, events[0]), capacity, events[1..]);
    }
  }

  lemma SameRising(n: Node, n': Node)
    requires Rising(n) && n'.done == n.done && n'.nextRound == n.nextRound
    ensures Rising(n')
  {
  }

  /**
   * Whatever arrives in whatever order: a submission answered without error is never below the round the runtime
   * expected, and each is for a later round than the one before, exactly unless that was the last round.
   */
  lemma AnsweredRoundsRise(aggregate: Aggregation, n: Node, capacity: nat, events: seq<Event>, i: nat)
    requires Start(n) && i < |After(aggregate, n, capacity, events).done|
    ensures var done := After(aggregate, n, capacity, events).done;
            && done[i].round >= done[i].runtimeRound
            && (i > 0 ==> (done[i - 1].round < done[i].round <==> done[i - 1].round < U64_MAX))
  {
    AlwaysRising(aggregate, n, capacity, events);
  }

  // ---------- no queued pulse goes stale ----------

  ghost predicate StrictlyIncreasing(ps: seq<CanonicalPulse>) {
    forall i, j :: 0 <= i < j < |ps| ==> ps[i].round < ps[j].round
  }

  /** The last submission was for a pulse that has left the queue. */
  ghost predicate FromQueue(n: Node) {
    && Accounted(n.queue) && Local(n)
    && (n.done != [] ==>
          exists k :: 0 <= k < |n.queue.gone| && n.queue.gone[k].pulse.round == n.done[|n.done| - 1].round)
  }

  lemma ArriveFromQueue(n: Node, capacity: nat, p: CanonicalPulse)
    requires FromQueue(n) && Bounded(n.queue, capacity)
    ensures FromQueue(n.(queue := Push(n.queue, capacity, p)))
  {
    PushAccounted(n.queue, capacity, p);
    var n' := n.(queue := Push(n.queue, capacity, p));
    if n.done != [] {
      var k :| 0 <= k < |n.queue.gone| && n.queue.gone[k].pulse.round == n.done[|n.done| - 1].round;
      assert n'.queue.gone[k] == n.queue.gone[k];
    }
  }

  lemma FinalizeFromQueue(aggregate: Aggregation, n: Node, capacity: nat, runtimeRound: uint64, maxRounds: uint8,
                          env: Env)
    requires FromQueue(n) && Bounded(n.queue, capacity)
    ensures FromQueue(HandleFinality(aggregate, n, runtimeRound, maxRounds, env))
  {
    hide SubmitPulse;
    DropAccounted(n.queue, capacity, maxRounds);
    var n' := HandleFinality(aggregate, n, runtimeRound, maxRounds, env);
    var batch := n.queue.waiting[..Min(maxRounds, |n.queue.waiting|)];
    if n'.done != n.done {
      var p := LatestFresh(batch, Max(runtimeRound, n.nextRound)).value;
      var i :| 0 <= i < |batch| && batch[i] == p;
      assert n'.queue.gone[|n.queue.gone| + i] == Consumed(p);
    } else if n.done != [] {
      var k :| 0 <= k < |n.queue.gone| && n.queue.gone[k].pulse.round == n.done[|n.done| - 1].round;
      assert n'.queue.gone[k] == n.queue.gone[k];
    }
  }

  lemma {:induction false} AlwaysFromQueue(aggregate: Aggregation, n: Node, capacity: nat, events: seq<Event>)
    requires FromQueue(n) && Bounded(n.queue, capacity)
    ensures FromQueue(After(aggregate, n, capacity, events))
    decreases |events|
  {
    hide FromQueue, HandleFinality, Push, Bounded;
    if events != [] {
      match events[0] {
        case Arrive(p) => ArriveFromQueue(n, capacity, p);
        case Finalize(runtimeRound, maxRounds, env) =>
          FinalizeFromQueue(aggregate, n, capacity, runtimeRound, maxRounds, env);
      }
      QueueAccounted(n);
      AlwaysAccounted(aggregate, n, capacity, [events[0]]);
      OneEvent(aggregate, n, capacity, events[0]);
      AlwaysFromQueue(aggregate, Next(aggregate, n, capacity, events[0]), capacity, events[1..]);
    }
  }

  lemma QueueAccounted(n: Node)
    requires FromQueue(n)
    ensures Accounted(n.queue)
  {
  }

  lemma OneEvent(aggregate: Aggregation, n: Node, capacity: nat, e: Event)
    ensures After(aggregate, n, capacity, [e]) == Next(aggregate, n, capacity, e)
  {
    assert [e][1..] == [];
    assert After(aggregate, Next(aggregate, n, capacity, e), capacity, []) == Next(aggregate, n, capacity, e);
  }

  lemma FreshInOrder(n: Node, i: nat)
    requires FromQueue(n) && StrictlyIncreasing(n.queue.received) && i < |n.queue.waiting|
    ensures n.queue.waiting[i].round >= n.nextRound
  {
    if n.done != [] {
      var last := n.done[|n.done| - 1].round;
      var k :| 0 <= k < |n.queue.gone| && n.queue.gone[k].pulse.round == last;
      var q := n.queue;
      assert q.received[k] == q.gone[k].pulse;
      assert q.received[|q.gone| + i] == q.waiting[i];
      assert WrapAdd64(last, 1) == if last == U64_MAX then 0 else last + 1;
    }
  }

  /** If pulses arrive in order of their rounds, every pulse still waiting is at or above the local next round. */
  lemma QueuedPulsesAreFresh(aggregate: Aggregation, n: Node, capacity: nat, events: seq<Event>, i: nat)
    requires Start(n) && i < |After(aggregate, n, capacity, events).queue.waiting|
    requires StrictlyIncreasing(After(aggregate, n, capacity, events).queue.received)
    ensures var n' := After(aggregate, n, capacity, events); n'.queue.waiting[i].round >= n'.nextRound
  {
    hide After, StrictlyIncreasing;
    assert FromQueue(n) && Bounded(n.queue, capacity);
    AlwaysFromQueue(aggregate, n, capacity, events);
    FreshInOrder(After(aggregate, n, capacity, events), i);
  }

  // ---------- what the pool takes ----------

  /**
   * A notification answered without error puts its pulse into the pool exactly if the worker has not served the
   * best block yet; otherwise the pool stays as it is. The local next round moves past the pulse either way.
   */
  lemma AnsweredIsPooledIff(aggregate: Aggregation, n: Node, runtimeRound: uint64, maxRounds: uint8, env: Env)
    requires HandleFinality(aggregate, n, runtimeRound, maxRounds, env).done != n.done
    ensures var n' := HandleFinality(aggregate, n, runtimeRound, maxRounds, env);
            && |n'.done| == |n.done| + 1 && n'.done[..|n.done|] == n.done
            && n'.nextRound == WrapAdd64(n'.done[|n.done|].round, 1)
            && (n'.worker.pool == n.worker.pool <==> n.worker.lastSubmitted == Some(env.best))
            && (n.worker.lastSubmitted != Some(env.best) ==>
                  && |n'.worker.pool| == |n.worker.pool| + 1 && n'.worker.pool[..|n.worker.pool|] == n.worker.pool
                  && var e := n'.worker.pool[|n.worker.pool|];
                     e.block == env.best && e.start == e.end == n'.done[|n.done|].round)
  {
    hide Drop, LatestFresh, WrapAdd64;
  }

  /** A notification not answered, or with nothing fresh, leaves pool, record and next round alone. */
  lemma UnansweredChangesNothing(aggregate: Aggregation, n: Node, runtimeRound: uint64, maxRounds: uint8, env: Env)
    requires HandleFinality(aggregate, n, runtimeRound, maxRounds, env).done == n.done
    ensures var n' := HandleFinality(aggregate, n, runtimeRound, maxRounds, env);
            n'.worker.pool == n.worker.pool && n'.nextRound == n.nextRound
  {
    hide Drop, LatestFresh, WrapAdd64;
    var d := [Done(0, 0)];
    assert |n.done + d| != |n.done|;
  }

  /** The pool holds the answered submissions at the places `at`, in the order they were answered. */
  ghost predicate Picks(pool: seq<PoolEntry>, done: seq<Done>, at: seq<nat>) {
    && |at| == |pool| && (forall i :: 0 <= i < |at| ==> at[i] < |done|)
    && (forall i, j :: 0 <= i < j < |at| ==> at[i] < at[j])
    && (forall i :: 0 <= i < |at| ==> pool[i].start == pool[i].end == done[at[i]].round)
  }

  lemma MorePicks(pool: seq<PoolEntry>, done: seq<Done>, at: seq<nat>, d: Done)
    requires Picks(pool, done, at)
    ensures Picks(pool, done + [d], at)
    ensures forall e: PoolEntry :: e.start == e.end == d.round ==> Picks(pool + [e], done + [d], at + [|done|])
  {
  }

  lemma {:induction false} AlwaysPicks(aggregate: Aggregation, n: Node, capacity: nat, events: seq<Event>, at: seq<nat>)
    returns (at': seq<nat>)
    requires Picks(n.worker.pool, n.done, at)
    ensures Picks(After(aggregate, n, capacity, events).worker.pool, After(aggregate, n, capacity, events).done, at')
    decreases |events|
  {
    hide Picks, HandleFinality, Push;
    at' := at;
    if events != [] {
      var n' := Next(aggregate, n, capacity, events[0]);
      if events[0].Finalize? {
        at' := FinalizePicks(aggregate, n, events[0].runtimeRound, events[0].maxRounds, events[0].env, at);
      }
      at' := AlwaysPicks(aggregate, n', capacity, events[1..], at');
    }
  }

  lemma FinalizePicks(aggregate: Aggregation, n: Node, runtimeRound: uint64, maxRounds: uint8, env: Env, at: seq<nat>)
    returns (at': seq<nat>)
    requires Picks(n.worker.pool, n.done, at)
    ensures var n' := HandleFinality(aggregate, n, runtimeRound, maxRounds, env); Picks(n'.worker.pool, n'.done, at')
  {
    hide Picks, HandleFinality;
    var n' := HandleFinality(aggregate, n, runtimeRound, maxRounds, env);
    at' := at;
    if n'.done == n.done {
      UnansweredChangesNothing(aggregate, n, runtimeRound, maxRounds, env);
    } else {
      AnsweredIsPooledIff(aggregate, n, runtimeRound, maxRounds, env);
      var d := n'.done[|n.done|];
      assert n'.done == n.done + [d];
      MorePicks(n.worker.pool, n.done, at, d);
      if n.worker.lastSubmitted != Some(env.best) {
        var e := n'.worker.pool[|n.worker.pool|];
        assert n'.worker.pool == n.worker.pool + [e];
        at' := at + [|n.done|];
      }
    }
  }

  /** Between two answered submissions rounds rise unless one from the first on was for the last round there is. */
  lemma {:induction false} RoundsRiseFar(done: seq<Done>, i: nat, j: nat)
    requires RoundsRise(done) && i < j < |done|
    requires forall k :: i <= k < j ==> done[k].round < U64_MAX
    ensures done[i].round < done[j].round
  {
    if i + 1 < j { RoundsRiseFar(done, i, j - 1); }
    assert done[j - 1].round < U64_MAX;
  }

  /**
   * Over every run, whatever arrives in whatever order and however the best block moves: the pool holds some of
   * the answered submissions, in their order; each is for a round at or above the next round the runtime had given
   * at that notification; and their rounds strictly rise as long as the last round there is has not been answered.
   */
  lemma SubmittedRoundsRise(aggregate: Aggregation, n: Node, capacity: nat, events: seq<Event>) returns (at: seq<nat>)
    requires Start(n)
    ensures var n' := After(aggregate, n, capacity, events); var pool, done := n'.worker.pool, n'.done;
            && Picks(pool, done, at)
            && (forall i :: 0 <= i < |pool| ==> pool[i].start >= done[at[i]].runtimeRound)
            && (forall i, j :: 0 <= i < j < |pool| && (forall k :: at[i] <= k < at[j] ==> done[k].round < U64_MAX) ==>
                  pool[i].end < pool[j].start)
  {
    hide After;
    var n' := After(aggregate, n, capacity, events);
    var pool, done := n'.worker.pool, n'.done;
    at := AlwaysPicks(aggregate, n, capacity, events, []);
    AlwaysRising(aggregate, n, capacity, events);
    forall i, j | 0 <= i < j < |pool| && (forall k :: at[i] <= k < at[j] ==> done[k].round < U64_MAX)
      ensures pool[i].end < pool[j].start
    {
      RoundsRiseFar(done, at[i], at[j]);
    }
  }

  // ---------- a pulse the worker skips is lost ----------

  predicate SawLastRound(done: seq<Done>) {
    exists i :: 0 <= i < |done| && done[i].round == U64_MAX
  }

  lemma SawMore(done: seq<Done>, d: Done)
    ensures SawLastRound(done + [d]) <==> SawLastRound(done) || d.round == U64_MAX
  {
    var more := done + [d];
    assert more[|done|] == d;
    if SawLastRound(done) {
      var i :| 0 <= i < |done| && done[i].round == U64_MAX;
      assert more[i] == done[i];
    }
  }

  /** From `n` to `n'` the pool only grew, and only by rounds at or above the next round of `n`. */
  ghost predicate OnlyAhead(n: Node, n': Node) {
    var pool, pool' := n.worker.pool, n'.worker.pool;
    && n.nextRound <= n'.nextRound && |pool| <= |pool'| && pool'[..|pool|] == pool
    && forall i :: |pool| <= i < |pool'| ==> pool'[i].start == pool'[i].end >= n.nextRound
  }

  lemma FinalizeOnlyAhead(aggregate: Aggregation, n: Node, runtimeRound: uint64, maxRounds: uint8, env: Env)
    ensures var n' := HandleFinality(aggregate, n, runtimeRound, maxRounds, env);
            && (SawLastRound(n'.done) || OnlyAhead(n, n')) && (SawLastRound(n.done) ==> SawLastRound(n'.done))
  {
    hide Drop, SawLastRound;
    var n' := HandleFinality(aggregate, n, runtimeRound, maxRounds, env);
    if n'.done != n.done {
      var d := n'.done[|n.done|];
      assert n'.done == n.done + [d] && d.round >= n.nextRound;
      SawMore(n.done, d);
      if d.round < U64_MAX { assert WrapAdd64(d.round, 1) == d.round + 1; }
    }
  }

  lemma OnlyAheadTrans(a: Node, b: Node, c: Node)
    requires OnlyAhead(a, b) && OnlyAhead(b, c)
    ensures OnlyAhead(a, c)
  {
    var p, q, r := a.worker.pool, b.worker.pool, c.worker.pool;
    forall i | |p| <= i < |r| ensures r[i].start == r[i].end >= a.nextRound {
      if i < |q| { assert r[..|q|][i] == q[i]; }
    }
    assert r[..|p|] == r[..|q|][..|p|];
  }

  /** Until the last round there is has been answered, no run puts a round behind the local next round into the pool. */
  lemma {:induction false} PassedRoundsStayOut(aggregate: Aggregation, n: Node, capacity: nat, events: seq<Event>)
    ensures var n' := After(aggregate, n, capacity, events);
            && (SawLastRound(n'.done) || OnlyAhead(n, n')) && (SawLastRound(n.done) ==> SawLastRound(n'.done))
    decreases |events|
  {
    hide SawLastRound, HandleFinality, Push;
    if events != [] {
      var n1 := Next(aggregate, n, capacity, events[0]);
      if events[0].Finalize? {
        FinalizeOnlyAhead(aggregate, n, events[0].runtimeRound, events[0].maxRounds, events[0].env);
      }
      PassedRoundsStayOut(aggregate, n1, capacity, events[1..]);
      var n2 := After(aggregate, n1, capacity, events[1..]);
      if !SawLastRound(n2.done) { OnlyAheadTrans(n, n1, n2); }
    }
  }

  /** One pulse arrives and is picked up at the next notification. */
  function ArriveAndFinalize(p: CanonicalPulse, env: Env): seq<Event> {
    [Arrive(p), Finalize(0, 1, env)]
  }

  lemma OneRound(aggregate: Aggregation, n: Node, capacity: nat, p: CanonicalPulse, env: Env)
    requires n.queue.waiting == [] && p.round >= n.nextRound && Works(env)
    ensures var n' := After(aggregate, n, capacity, ArriveAndFinalize(p, env));
            && n'.queue.waiting == [] && n'.nextRound == WrapAdd64(p.round, 1)
            && n'.done == n.done + [Done(p.round, 0)] && n'.worker.lastSubmitted == Some(env.best)
            && n'.worker.pool == n.worker.pool + if n.worker.lastSubmitted == Some(env.best) then []
                                                 else [PoolEntry(env.best, aggregate([p.signature]), p.round, p.round)]
  {
    hide WrapAdd64;
    var events := ArriveAndFinalize(p, env);
    var n1 := Next(aggregate, n, capacity, events[0]);
    assert n1.queue.waiting == [p];
    assert [p][..1] == [p] && [p][1..] == [];
    assert LatestFresh([p], Max(0, n.nextRound)) == Some(p);
    assert events[1..] == [events[1]];
    OneEvent(aggregate, n1, capacity, events[1]);
  }

  lemma {:induction false} AfterConcat(aggregate: Aggregation, n: Node, capacity: nat, a: seq<Event>, b: seq<Event>)
    ensures After(aggregate, n, capacity, a + b) == After(aggregate, After(aggregate, n, capacity, a), capacity, b)
    decreases |a|
  {
    if a == [] {
      assert a + b == b;
    } else {
      assert (a + b)[1..] == a[1..] + b;
      AfterConcat(aggregate, Next(aggregate, n, capacity, a[0]), capacity, a[1..], b);
    }
  }

  /**
   * The pulse is lost: two pulses in order, two notifications at the same best block. The second is answered
   * without error and the next round moves past it, but the pool has only the first; and whatever happens later,
   * the second never gets there, unless the last round there is comes by and the next round wraps.
   */
  lemma SkippedPulseIsLost(aggregate: Aggregation, n: Node, capacity: nat, p: CanonicalPulse, q: CanonicalPulse,
                           env: Env, later: seq<Event>)
    requires Start(n) && p.round < q.round < U64_MAX && Works(env)
    ensures var n' := After(aggregate, n, capacity, ArriveAndFinalize(p, env) + ArriveAndFinalize(q, env));
            var end := After(aggregate, n', capacity, later);
            && n'.done == [Done(p.round, 0), Done(q.round, 0)] && n'.nextRound == q.round + 1 && n'.queue.waiting == []
            && n'.worker.pool == [PoolEntry(env.best, aggregate([p.signature]), p.round, p.round)]
            && (!SawLastRound(end.done) ==>
                  forall i :: 0 <= i < |end.worker.pool| ==>
                    !(end.worker.pool[i].start <= q.round <= end.worker.pool[i].end))
  {
    hide After, SawLastRound;
    var n1 := After(aggregate, n, capacity, ArriveAndFinalize(p, env));
    OneRound(aggregate, n, capacity, p, env);
    assert WrapAdd64(p.round, 1) == p.round + 1 && WrapAdd64(q.round, 1) == q.round + 1;
    OneRound(aggregate, n1, capacity, q, env);
    AfterConcat(aggregate, n, capacity, ArriveAndFinalize(p, env), ArriveAndFinalize(q, env));
    var n' := After(aggregate, n1, capacity, ArriveAndFinalize(q, env));
    PassedRoundsStayOut(aggregate, n', capacity, later);
    var end := After(aggregate, n', capacity, later);
    if !SawLastRound(end.done) {
      forall i | 0 <= i < |end.worker.pool| ensures !(end.worker.pool[i].start <= q.round <= end.worker.pool[i].end) {
        if i == 0 { assert end.worker.pool[..1][0] == n'.worker.pool[0]; }
      }
    }
  }

  // ---------- one transaction per block ----------

  predicate NotifiedAt(events: seq<Event>, k: nat, best: nat) {
    k < |events| && events[k].Finalize? && events[k].env.best == best
  }

  /** After event `from` and before event `to` there is a notification at another best block. */
  ghost predicate LeftBetween(events: seq<Event>, from: nat, to: nat, best: nat) {
    exists k :: from < k < to && k < |events| && events[k].Finalize? && events[k].env.best != best
  }

  /**
   * Each pool entry comes from its own notification, named by `when`, at its best block. Two for the same block have a
   * notification at another one between them, and so has the last if the worker has forgotten the block.
   */
  ghost predicate Traced(events: seq<Event>, w: Worker, when: seq<nat>) {
    && |when| == |w.pool|
    && (forall i :: 0 <= i < |when| ==> NotifiedAt(events, when[i], w.pool[i].block))
    && (forall i, j :: 0 <= i < j < |when| ==> when[i] < when[j])
    && (forall i, j :: 0 <= i < j < |when| && w.pool[i].block == w.pool[j].block ==>
          LeftBetween(events, when[i], when[j], w.pool[i].block))
    && (forall i :: 0 <= i < |when| && w.lastSubmitted != Some(w.pool[i].block) ==>
          LeftBetween(events, when[i], |events|, w.pool[i].block))
  }

  lemma LeftStays(events: seq<Event>, e: Event, from: nat, to: nat, best: nat)
    requires LeftBetween(events, from, to, best)
    ensures LeftBetween(events + [e], from, to, best) && LeftBetween(events + [e], from, |events| + 1, best)
  {
    var k :| from < k < to && k < |events| && events[k].Finalize? && events[k].env.best != best;
    assert (events + [e])[k] == events[k];
  }

  lemma LeftNow(events: seq<Event>, e: Event, from: nat, best: nat)
    requires from < |events| && e.Finalize? && e.env.best != best
    ensures LeftBetween(events + [e], from, |events| + 1, best)
  {
    assert (events + [e])[|events|] == e;
  }

  /** How one notification changes the worker: not at all, or the block it marked last was another one. */
  ghost predicate Moves(w: Worker, w': Worker, best: nat) {
    || w' == w
    || (&& w.lastSubmitted != Some(best) && (w'.pool == w.pool || w'.lastSubmitted == Some(best))
        && |w.pool| <= |w'.pool| <= |w.pool| + 1 && w'.pool[..|w.pool|] == w.pool
        && (|w'.pool| > |w.pool| ==> w'.pool[|w.pool|].block == best))
  }

  lemma FinalizeMoves(aggregate: Aggregation, n: Node, runtimeRound: uint64, maxRounds: uint8, env: Env)
    ensures Moves(n.worker, HandleFinality(aggregate, n, runtimeRound, maxRounds, env).worker, env.best)
  {
    hide Drop, LatestFresh, WrapAdd64;
  }

  lemma TracedMore(events: seq<Event>, w: Worker, w': Worker, when: seq<nat>, e: Event) returns (when': seq<nat>)
    requires Traced(events, w, when) && if e.Finalize? then Moves(w, w', e.env.best) else w' == w
    ensures Traced(events + [e], w', when')
  {
    hide Traced, Moves;
    TracedLonger(events, w, when, e);
    if w' == w {
      when' := when;
    } else {
      when' := MarkedNow(events, w, w', when, e);
    }
  }

  lemma TracedLonger(events: seq<Event>, w: Worker, when: seq<nat>, e: Event)
    requires Traced(events, w, when)
    ensures Traced(events + [e], w, when)
  {
    hide LeftBetween;
    forall i, j | 0 <= i < j < |when| && w.pool[i].block == w.pool[j].block
      ensures LeftBetween(events + [e], when[i], when[j], w.pool[i].block)
    {
      LeftStays(events, e, when[i], when[j], w.pool[i].block);
    }
    forall i | 0 <= i < |when| && w.lastSubmitted != Some(w.pool[i].block)
      ensures LeftBetween(events + [e], when[i], |events| + 1, w.pool[i].block)
    {
      LeftStays(events, e, when[i], |events|, w.pool[i].block);
    }
  }

  lemma MarkedNow(events: seq<Event>, w: Worker, w': Worker, when: seq<nat>, e: Event) returns (when': seq<nat>)
    requires Traced(events, w, when) && Traced(events + [e], w, when)
    requires e.Finalize? && w' != w && Moves(w, w', e.env.best)
    ensures Traced(events + [e], w', when')
  {
    hide LeftBetween;
    var more := events + [e];
    forall i | 0 <= i < |when| ensures w'.pool[i] == w.pool[i] { assert w'.pool[..|w.pool|][i] == w.pool[i]; }
    forall i | 0 <= i < |when| && w'.lastSubmitted != Some(w.pool[i].block)
      ensures LeftBetween(more, when[i], |more|, w.pool[i].block)
    {
      if w.lastSubmitted == Some(w.pool[i].block) { LeftNow(events, e, when[i], w.pool[i].block); }
    }
    when' := when;
    if |w'.pool| > |w.pool| {
      when' := when + [|events|];
      forall i | 0 <= i < |when| && w.pool[i].block == e.env.best
        ensures LeftBetween(more, when[i], |events|, e.env.best)
      {
        LeftStays(events, e, when[i], |events|, e.env.best);
      }
    }
  }

  /**
   * Over every run, whatever the best block does: each transaction in the pool comes from a notification of its own at
   * its best block, and between two for the same best block there is a notification at another one. So within a stretch
   * of notifications at one best block the pool takes at most one, across pool failures, resets and retries.
   */
  lemma {:induction false} OncePerStretch(aggregate: Aggregation, n: Node, capacity: nat, events: seq<Event>)
    returns (when: seq<nat>)
    requires Start(n)
    ensures Traced(events, After(aggregate, n, capacity, events).worker, when)
  {
    hide Traced, HandleFinality, Push, After;
    if events == [] {
      when := [];
      NothingTraced(aggregate, n, capacity);
    } else {
      var rest, e := events[..|events| - 1], events[|events| - 1];
      assert events == rest + [e];
      when := OncePerStretch(aggregate, n, capacity, rest);
      var before := After(aggregate, n, capacity, rest);
      AfterConcat(aggregate, n, capacity, rest, [e]);
      OneEvent(aggregate, before, capacity, e);
      if e.Finalize? { FinalizeMoves(aggregate, before, e.runtimeRound, e.maxRounds, e.env); }
      when := TracedMore(rest, before.worker, After(aggregate, n, capacity, events).worker, when, e);
    }
  }

  lemma NothingTraced(aggregate: Aggregation, n: Node, capacity: nat)
    requires Start(n)
    ensures Traced([], After(aggregate, n, capacity, []).worker, [])
  {
  }

  /** The best block number read at successive notifications never goes down. */
  ghost predicate BestNeverFalls(events: seq<Event>) {
    forall k, l :: 0 <= k < l < |events| && events[k].Finalize? && events[l].Finalize? ==>
      events[k].env.best <= events[l].env.best
  }

  /**
   * If the best block number never falls, the pool takes at most one pulse transaction per best block, across
   * pool failures, resets and retries, and (unless the last round was reached) never two for the same round.
   */
  lemma OneTransactionPerBlock(aggregate: Aggregation, n: Node, capacity: nat, events: seq<Event>, i: nat, j: nat)
    requires Start(n) && BestNeverFalls(events)
    requires i < j < |After(aggregate, n, capacity, events).worker.pool|
    ensures var n' := After(aggregate, n, capacity, events); var pool := n'.worker.pool;
            && pool[i].block < pool[j].block
            && (!SawLastRound(n'.done) ==> pool[i].end < pool[j].start)
  {
    hide After;
    var when := OncePerStretch(aggregate, n, capacity, events);
    var at := SubmittedRoundsRise(aggregate, n, capacity, events);
    var pool := After(aggregate, n, capacity, events).worker.pool;
    RisingBest(events, when[i], when[j], pool[i].block, pool[j].block);
  }

  lemma RisingBest(events: seq<Event>, k: nat, l: nat, earlier: nat, later: nat)
    requires BestNeverFalls(events) && k < l && NotifiedAt(events, k, earlier) && NotifiedAt(events, l, later)
    ensures earlier <= later && (LeftBetween(events, k, l, earlier) ==> earlier < later)
  {
  }

  /**
   * A best block number that falls back lets a second transaction into the pool for the same block: three pulses
   * in order, notified at some block, the next one, and the first again.
   */
  lemma FallingBestRepeats(aggregate: Aggregation, n: Node, capacity: nat, p: CanonicalPulse, q: CanonicalPulse,
                           r: CanonicalPulse, env: Env)
    requires Start(n) && p.round < q.round < r.round && Works(env)
    ensures var higher := env.(best := env.best + 1);
            var events := ArriveAndFinalize(p, env) + ArriveAndFinalize(q, higher) + ArriveAndFinalize(r, env);
            var pool := After(aggregate, n, capacity, events).worker.pool;
            |pool| == 3 && pool[0].block == pool[2].block && pool[0].end < pool[2].start
  {
    hide After;
    var higher := env.(best := env.best + 1);
    var a, b, c := ArriveAndFinalize(p, env), ArriveAndFinalize(q, higher), ArriveAndFinalize(r, env);
    OneRound(aggregate, n, capacity, p, env);
    var n1 := After(aggregate, n, capacity, a);
    assert WrapAdd64(p.round, 1) == p.round + 1 && WrapAdd64(q.round, 1) == q.round + 1;
    OneRound(aggregate, n1, capacity, q, higher);
    var n2 := After(aggregate, n1, capacity, b);
    OneRound(aggregate, n2, capacity, r, env);
    AfterConcat(aggregate, n, capacity, a, b);
    AfterConcat(aggregate, n, capacity, a + b, c);
  }

  // ---------- one notification, exactly ----------

  /** Among the pulses a notification takes off the queue there is one neither the runtime nor the gadget is past. */
  predicate HasFresh(n: Node, runtimeRound: uint64, maxRounds: uint8) {
    exists i :: 0 <= i < |n.queue.waiting| && i < maxRounds &&
      n.queue.waiting[i].round >= runtimeRound && n.queue.waiting[i].round >= n.nextRound
  }

  /** The pulse at place `i` is fresh and none after it that is taken off the queue is. */
  predicate LastFresh(n: Node, runtimeRound: uint64, maxRounds: uint8, i: nat) {
    var w := n.queue.waiting;
    && i < |w| && i < maxRounds && w[i].round >= runtimeRound && w[i].round >= n.nextRound
    && forall j :: i < j < |w| && j < maxRounds ==> w[j].round < runtimeRound || w[j].round < n.nextRound
  }

  lemma FreshPlace(n: Node, runtimeRound: uint64, maxRounds: uint8) returns (i: nat)
    ensures var batch := n.queue.waiting[..Min(maxRounds, |n.queue.waiting|)];
            var latest := LatestFresh(batch, Max(runtimeRound, n.nextRound));
            && (latest.Some? <==> HasFresh(n, runtimeRound, maxRounds))
            && (latest.Some? ==>
                  LastFresh(n, runtimeRound, maxRounds, i) && n.queue.waiting[i] == latest.value)
  {
    hide LatestFresh;
    var w := n.queue.waiting;
    var batch := w[..Min(maxRounds, |w|)];
    var latest := LatestFresh(batch, Max(runtimeRound, n.nextRound));
    i := 0;
    if latest.Some? {
      i :| 0 <= i < |batch| && batch[i] == latest.value &&
           forall j :: i < j < |batch| ==> batch[j].round < Max(runtimeRound, n.nextRound);
      forall j | i < j < |w| && j < maxRounds ensures w[j].round < runtimeRound || w[j].round < n.nextRound {
        assert batch[j] == w[j];
      }
    } else {
      forall k | 0 <= k < |w| && k < maxRounds ensures w[k].round < Max(runtimeRound, n.nextRound) {
        assert batch[k] == w[k];
      }
    }
  }

  predicate Served(w: Worker, env: Env) {
    w.lastSubmitted == Some(env.best)
  }

  /**
   * What one notification does. It takes the oldest pulses, up to the limit, off the queue. If the last fresh one of
   * them can be submitted, or the worker has served the best block already and has a key, it is answered and the next
   * round moves past it. It goes into the pool, with its own signature aggregated, exactly if everything works and the
   * block is not served yet.
   */
  lemma NotificationOutcome(aggregate: Aggregation, n: Node, runtimeRound: uint64, maxRounds: uint8, env: Env)
    returns (i: nat)
    ensures var n', w := HandleFinality(aggregate, n, runtimeRound, maxRounds, env), n.queue.waiting;
            var found := HasFresh(n, runtimeRound, maxRounds);
            var answered := found && env.hasKey && (Served(n.worker, env) || Works(env));
            var pooled := found && !Served(n.worker, env) && Works(env);
            && n'.queue.waiting == w[if |w| < maxRounds then |w| else maxRounds..]
            && n'.queue.received == n.queue.received
            && (found ==> LastFresh(n, runtimeRound, maxRounds, i))
            && n'.done == n.done + (if answered then [Done(w[i].round, runtimeRound)] else [])
            && n'.nextRound == (if !answered then n.nextRound else if w[i].round == U64_MAX then 0 else w[i].round + 1)
            && n'.worker.pool == n.worker.pool + if !pooled then []
               else [PoolEntry(env.best, aggregate([w[i].signature]), w[i].round, w[i].round)]
  {
    hide LatestFresh, HasFresh, LastFresh;
    i := FreshPlace(n, runtimeRound, maxRounds);
    assert n.done + [] == n.done && n.worker.pool + [] == n.worker.pool;
    if HasFresh(n, runtimeRound, maxRounds) {
      FreshWithin(n, runtimeRound, maxRounds, i);
      var round := n.queue.waiting[i].round;
      assert WrapAdd64(round, 1) == if round == U64_MAX then 0 else round + 1;
    }
  }

  lemma FreshWithin(n: Node, runtimeRound: uint64, maxRounds: uint8, i: nat)
    requires LastFresh(n, runtimeRound, maxRounds, i)
    ensures i < |n.queue.waiting|
  {
  }

  /** Each refusal by the worker says why; a served block is not a refusal. */
  lemma SubmitAnswers(w: Worker, env: Env, asig: Bytes, start: uint64, end: uint64)
    ensures var r := SubmitPulse(w, env, asig, start, end).result; var tries := env.hasKey && !Served(w, env);
            && (r.Success? <==> env.hasKey && (Served(w, env) || Works(env)))
            && (r == Failure(NoAuthorityKeys) <==> !env.hasKey || (tries && env.signing.KeyMissing?))
            && (r == Failure(KeystoreError) <==> tries && env.signing.SigningFails?)
            && (r == Failure(RuntimeApiError) <==> tries && env.signing.Signed? && !env.builds)
            && (r == Failure(TransactionSubmissionFailed) <==>
                  tries && env.signing.Signed? && env.builds && !env.poolTakes)
  {
  }

  // ---------- which block the worker holds as served ----------

  /** A notification that gets past the check for a served block. */
  predicate Attempts(n: Node, e: Event) {
    e.Finalize? && e.env.hasKey && HasFresh(n, e.runtimeRound, e.maxRounds) && !Served(n.worker, e.env)
  }

  /** Only a refusal by the pool frees the block. */
  predicate PoolRefuses(env: Env) {
    env.hasKey && env.signing.Signed? && env.builds && !env.poolTakes
  }

  lemma MarkStep(aggregate: Aggregation, n: Node, capacity: nat, e: Event)
    ensures Next(aggregate, n, capacity, e).worker.lastSubmitted ==
            if !Attempts(n, e) then n.worker.lastSubmitted else if PoolRefuses(e.env) then None else Some(e.env.best)
  {
    hide LatestFresh, HasFresh, LastFresh, Drop, Push;
    if e.Finalize? { var i := FreshPlace(n, e.runtimeRound, e.maxRounds); }
  }

  /** Event `k` of the run is a notification that gets past the check. */
  ghost predicate AttemptsAt(aggregate: Aggregation, n: Node, capacity: nat, events: seq<Event>, k: nat)
    requires k < |events|
  {
    Attempts(After(aggregate, n, capacity, events[..k]), events[k])
  }

  /** None of the events from `from` on gets past the check. */
  ghost predicate QuietFrom(aggregate: Aggregation, n: Node, capacity: nat, events: seq<Event>, from: nat) {
    forall k :: from <= k < |events| ==> !AttemptsAt(aggregate, n, capacity, events, k)
  }

  lemma QuietLonger(aggregate: Aggregation, n: Node, capacity: nat, events: seq<Event>, e: Event, from: nat)
    requires QuietFrom(aggregate, n, capacity, events, from)
    requires !Attempts(After(aggregate, n, capacity, events), e)
    ensures QuietFrom(aggregate, n, capacity, events + [e], from)
  {
    hide Attempts, After;
    var more := events + [e];
    forall k | from <= k < |more| ensures !AttemptsAt(aggregate, n, capacity, more, k) {
      assert more[..k] == events[..k];
      if k < |events| {
        assert !AttemptsAt(aggregate, n, capacity, events, k);
      } else {
        assert events[..|events|] == events;
      }
    }
  }

  /**
   * Over every run the worker holds as served the best block of the last notification that got past the check for a
   * served block, or none if the pool refused that one or there was none.
   */
  lemma {:induction false} ServedBlock(aggregate: Aggregation, n: Node, capacity: nat, events: seq<Event>)
    returns (last: Option<nat>)
    requires Start(n)
    ensures var mark := After(aggregate, n, capacity, events).worker.lastSubmitted;
            match last
            case None => mark.None? && QuietFrom(aggregate, n, capacity, events, 0)
            case Some(k) =>
              && k < |events| && AttemptsAt(aggregate, n, capacity, events, k)
              && QuietFrom(aggregate, n, capacity, events, k + 1)
              && mark == if PoolRefuses(events[k].env) then None else Some(events[k].env.best)
  {
    hide Attempts, PoolRefuses, QuietFrom, Next, After;
    if events == [] {
      last := None;
      NothingYet(aggregate, n, capacity);
    } else {
      var rest, e := events[..|events| - 1], events[|events| - 1];
      assert events == rest + [e];
      last := ServedBlock(aggregate, n, capacity, rest);
      var before := After(aggregate, n, capacity, rest);
      AfterConcat(aggregate, n, capacity, rest, [e]);
      OneEvent(aggregate, before, capacity, e);
      MarkStep(aggregate, before, capacity, e);
      if Attempts(before, e) {
        last := Some(|rest|);
        NothingAfter(aggregate, n, capacity, events);
      } else if last.None? {
        QuietLonger(aggregate, n, capacity, rest, e, 0);
      } else {
        assert events[..last.value] == rest[..last.value];
        QuietLonger(aggregate, n, capacity, rest, e, last.value + 1);
      }
    }
  }

  lemma NothingYet(aggregate: Aggregation, n: Node, capacity: nat)
    requires Start(n)
    ensures After(aggregate, n, capacity, []).worker.lastSubmitted.None? && QuietFrom(aggregate, n, capacity, [], 0)
  {
  }

  lemma NothingAfter(aggregate: Aggregation, n: Node, capacity: nat, events: seq<Event>)
    ensures QuietFrom(aggregate, n, capacity, events, |events|)
  {
  }

  lemma {:induction false} ArrivalsKeepWorker(aggregate: Aggregation, n: Node, capacity: nat, events: seq<Event>)
    requires forall k :: 0 <= k < |events| ==> events[k].Arrive?
    ensures After(aggregate, n, capacity, events).worker == n.worker
    decreases |events|
  {
    hide Push;
    if events != [] { ArrivalsKeepWorker(aggregate, Next(aggregate, n, capacity, events[0]), capacity, events[1..]); }
  }

  /**
   * Retries: after a notification that got past the check and failed, let pulses arrive and notify again at the same
   * best block, with a fresh pulse and everything working. That pulse goes into the pool exactly if it was the pool
   * that had refused; after a failure to sign or to build the block stays marked and the pulse is skipped.
   */
  lemma RetryIffPoolRefused(aggregate: Aggregation, n: Node, capacity: nat, first: Event, arrivals: seq<Event>,
                            second: Event) returns (i: nat)
    requires Attempts(n, first) && !Works(first.env) && forall k :: 0 <= k < |arrivals| ==> arrivals[k].Arrive?
    requires second.Finalize? && second.env.best == first.env.best && Works(second.env)
    requires HasFresh(After(aggregate, Next(aggregate, n, capacity, first), capacity, arrivals),
                      second.runtimeRound, second.maxRounds)
    ensures var before := After(aggregate, Next(aggregate, n, capacity, first), capacity, arrivals);
            && LastFresh(before, second.runtimeRound, second.maxRounds, i)
            && var p := before.queue.waiting[i];
               Next(aggregate, before, capacity, second).worker.pool ==
               n.worker.pool + if !PoolRefuses(first.env) then []
               else [PoolEntry(second.env.best, aggregate([p.signature]), p.round, p.round)]
  {
    hide HasFresh, LastFresh, HandleFinality, After;
    var n1 := Next(aggregate, n, capacity, first);
    var before := After(aggregate, n1, capacity, arrivals);
    MarkStep(aggregate, n, capacity, first);
    var j := NotificationOutcome(aggregate, n, first.runtimeRound, first.maxRounds, first.env);
    assert n.worker.pool + [] == n.worker.pool;
    ArrivalsKeepWorker(aggregate, n1, capacity, arrivals);
    i := NotificationOutcome(aggregate, before, second.runtimeRound, second.maxRounds, second.env);
  }

  // ---------- the queue, exactly ----------

  /** A bounded queue keeps the newest pulses that fit and drops its front exactly when it is full. */
  lemma QueueKeepsNewest(q: Queue, capacity: nat, p: CanonicalPulse)
    requires capacity >= 1 && Bounded(q, capacity)
    ensures var all, q' := q.waiting + [p], Push(q, capacity, p);
            && q'.waiting == all[|all| - Min(|all|, capacity)..]
            && q'.gone == q.gone + (if |q.waiting| == capacity then [Evicted(q.waiting[0])] else [])
            && q'.received == q.received + [p]
  {
    assert q.gone + [] == q.gone;
    if |q.waiting| == capacity { assert (q.waiting + [p])[1..] == q.waiting[1..] + [p]; }
  }

  /** Pulses taken off the queue leave as consumed, oldest first, as many as asked for or as there are. */
  lemma ConsumedInOrder(q: Queue, n: nat, i: nat)
    ensures var k, q' := Min(n, |q.waiting|), Drop(q, n);
            && q.waiting == q.waiting[..k] + q'.waiting && |q'.gone| == |q.gone| + k && q'.gone[..|q.gone|] == q.gone
            && (i < k ==> q'.gone[|q.gone| + i] == Consumed(q.waiting[i])) && q'.received == q.received
  {
  }
}
