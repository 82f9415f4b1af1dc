/** The counter, the subscription limit, and the one-way road to termination. */
module Lifecycle {
  import opened Saturating
  import opened Currency
  import opened Subscriptions
  import opened ManagerSpec
  import opened ManagerRuns

  /** A finalized subscription has no credits left. */
  predicate Sound(id: SubId, sub: Subscription) {
    sub.id == id && (sub.state.Finalized? ==> sub.creditsLeft == 0)
  }

  ghost predicate AllSound(subs: map<SubId, Subscription>) {
    forall id :: id in subs ==> Sound(id, subs[id])
  }

  /** The counter counts the stored subscriptions, never more than allowed, and all of them are sound. */
  ghost predicate Orderly(cfg: Config, s: State) {
    s.counter == |s.subs| <= cfg.maxSubscriptions && AllSound(s.subs)
  }

  lemma CreateOrderly(cfg: Config, s: State, caller: AccountId, p: CreateParams, generated: SubId, now: uint32,
                      noFees: bool, noDeposit: bool)
    requires Orderly(cfg, s)
    ensures Orderly(cfg, Commit(s, Create(cfg, s, caller, p, generated, now, noFees, noDeposit)))
  {
  }

  lemma TerminateOrderly(cfg: Config, s: State, id: SubId, noFees: bool, noDeposit: bool)
    requires Orderly(cfg, s) && id in s.subs
    ensures Orderly(cfg, Terminate(cfg, s, id, noFees, noDeposit).state)
  {
    assert (s.subs - {id}).Keys == s.subs.Keys - {id};
  }

  lemma DistributeOneOrderly(cfg: Config, s: State, id: SubId, now: uint32, limit: Limit, unsent: bool)
    requires Orderly(cfg, s) && id in s.subs
    ensures Orderly(cfg, DistributeOne(cfg, s, id, now, limit, unsent))
  {
    assert Sound(id, s.subs[id]);
  }

  lemma {:induction false} DistributeOrderly(cfg: Config, s: State, order: seq<SubId>, now: uint32,
                                             limits: map<SubId, Limit>, unsent: set<SubId>)
    requires Orderly(cfg, s) && forall id :: id in order ==> id in s.subs
    ensures Orderly(cfg, Distribute(cfg, s, order, now, limits, unsent))
  {
    if order != [] {
      var id, rest := order[|order| - 1], order[..|order| - 1];
      DistributeOrderly(cfg, s, rest, now, limits, unsent);
      var before := Distribute(cfg, s, rest, now, limits, unsent);
      DistributeOneOrderly(cfg, before, id, now, LimitFor(limits, id), id in unsent);
    }
  }

  lemma {:induction false} ReapOrderly(cfg: Config, s: State, order: seq<SubId>, stuck: set<SubId>)
    requires Orderly(cfg, s)
    ensures Orderly(cfg, Reap(cfg, s, order, stuck).state)
  {
    if order != [] {
      var id, rest := order[|order| - 1], order[..|order| - 1];
      ReapOrderly(cfg, s, rest, stuck);
      var r := Reap(cfg, s, rest, stuck);
      if id in r.state.subs { TerminateOrderly(cfg, r.state, id, id in stuck, id in stuck); }
    }
  }

  lemma StepOrderly(cfg: Config, s: State, c: Call)
    requires Orderly(cfg, s) && Enabled(s, c)
    ensures Orderly(cfg, Step(cfg, s, c))
  {
    match c
    case CreateCall(caller, p, generated, now, noFees, noDeposit) =>
      CreateOrderly(cfg, s, caller, p, generated, now, noFees, noDeposit);
    case PauseCall(_, target) => assert target in s.subs ==> Sound(target, s.subs[target]);
    case ReactivateCall(_, target) => assert target in s.subs ==> Sound(target, s.subs[target]);
    case UpdateCall(_, target, _, _, _) => assert target in s.subs ==> Sound(target, s.subs[target]);
    case KillCall(_, target, noFees, noDeposit) =>
      if target in s.subs { TerminateOrderly(cfg, s, target, noFees, noDeposit); }
    case Dispatch(now, order, limits, unsent) => DistributeOrderly(cfg, s, order, now, limits, unsent);
    case EndBlock(order, stuck) => ReapOrderly(cfg, s, order, stuck);
    case Transfer(_, _, _) =>
  }

  lemma {:induction false} RunOrderly(cfg: Config, s: State, calls: seq<Call>)
    requires Orderly(cfg, s) && ValidRun(cfg, s, calls)
    ensures Orderly(cfg, Run(cfg, s, calls))
    decreases |calls|
  {
    if calls != [] {
      StepOrderly(cfg, s, calls[0]);
      RunOrderly(cfg, Step(cfg, s, calls[0]), calls[1..]);
    }
  }

  /** In every reachable state the counter is right, the limit holds and finalized means out of credits. */
  lemma AlwaysOrderly(cfg: Config, s: State, calls: seq<Call>)
    requires Genesis(s) && ValidRun(cfg, s, calls)
    ensures Orderly(cfg, Run(cfg, s, calls))
  {
    RunOrderly(cfg, s, calls);
  }

  // ---------- finalized subscriptions only leave by removal ----------

  ghost predicate FinalizedIn(s: State, id: SubId) {
    id in s.subs && s.subs[id].state.Finalized?
  }

  /** Either gone, or still finalized and with the same history of service. */
  ghost predicate GoneOrSame(s: State, s': State, id: SubId) {
    id in s.subs && (id in s'.subs ==> s'.subs[id] == s.subs[id])
  }

  lemma OneKeepsFinalized(cfg: Config, s: State, target: SubId, now: uint32, limit: Limit, unsent: bool, id: SubId)
    requires target in s.subs && FinalizedIn(s, id) && s.subs[id].creditsLeft == 0
    ensures var s' := DistributeOne(cfg, s, target, now, limit, unsent); id in s'.subs && s'.subs[id] == s.subs[id]
  {
    hide Collects, AfterCollection, CreditFee;
  }

  lemma {:induction false} DistributeKeepsFinalized(cfg: Config, s: State, order: seq<SubId>, now: uint32,
                                                    limits: map<SubId, Limit>, unsent: set<SubId>, id: SubId)
    requires Orderly(cfg, s) && FinalizedIn(s, id) && forall k :: k in order ==> k in s.subs
    ensures GoneOrSame(s, Distribute(cfg, s, order, now, limits, unsent), id)
  {
    hide DistributeOne;
    assert Sound(id, s.subs[id]);
    if order != [] {
      var target, rest := order[|order| - 1], order[..|order| - 1];
      DistributeKeepsFinalized(cfg, s, rest, now, limits, unsent, id);
      var before := Distribute(cfg, s, rest, now, limits, unsent);
      OneKeepsFinalized(cfg, before, target, now, LimitFor(limits, target), target in unsent, id);
    }
  }

  lemma {:induction false} ReapGoneOrSame(cfg: Config, s: State, order: seq<SubId>, stuck: set<SubId>, id: SubId)
    requires id in s.subs
    ensures GoneOrSame(s, Reap(cfg, s, order, stuck).state, id)
  {
    if order != [] {
      ReapGoneOrSame(cfg, s, order[..|order| - 1], stuck, id);
    }
  }

  /** No call revives a finalized subscription or changes anything about it, short of removing it. */
  lemma FinalizedIsFinal(cfg: Config, s: State, c: Call, id: SubId)
    requires Orderly(cfg, s) && Enabled(s, c) && FinalizedIn(s, id)
    ensures GoneOrSame(s, Step(cfg, s, c), id)
  {
    match c
    case Dispatch(now, order, limits, unsent) => DistributeKeepsFinalized(cfg, s, order, now, limits, unsent, id);
    case EndBlock(order, stuck) => ReapGoneOrSame(cfg, s, order, stuck, id);
    case _ =>
  }

  // ---------- the end of a block removes exactly as many as it may ----------

  ghost function FinalizedIds(s: State): set<SubId> {
    set id | id in s.subs && s.subs[id].state.Finalized?
  }

  /** Fees and the other balances do not move when a finalized subscription is terminated. */
  lemma TerminateFinalized(cfg: Config, s: State, id: SubId, refused: bool)
    requires AllSound(s.subs) && FinalizedIn(s, id)
    ensures var t := Terminate(cfg, s, id, refused, refused);
            && t.done == !refused && t.state.balances.fees == s.balances.fees
            && t.state.subs == if refused then s.subs else s.subs - {id}
  {
    assert Sound(id, s.subs[id]);
  }

  /**
   * What has been picked after looking at `order`: the first finalized ones, as many as allowed. Of these the ones
   * the currency does not refuse are gone.
   */
  ghost predicate Progress(cfg: Config, s: State, order: seq<SubId>, stuck: set<SubId>, r: Reaping,
                           picked: set<SubId>)
  {
    && picked <= FinalizedIds(s) && (forall id :: id in picked ==> id in order)
    && r.picked == |picked| <= cfg.maxTerminatable
    && r.state.subs == s.subs - (picked - stuck)
    && r.state.balances.fees == s.balances.fees
    && (r.picked < cfg.maxTerminatable ==> forall id :: id in order && FinalizedIn(s, id) ==> id in picked)
    && FirstInOrder(s, order, picked)
  }

  /** A finalized subscription before a picked one is picked, too. */
  ghost predicate FirstInOrder(s: State, order: seq<SubId>, picked: set<SubId>) {
    forall i, j :: 0 <= i < j < |order| && order[j] in picked && FinalizedIn(s, order[i]) ==> order[i] in picked
  }

  lemma {:induction false} ReapProgress(cfg: Config, s: State, order: seq<SubId>, stuck: set<SubId>)
    returns (picked: set<SubId>)
    requires AllSound(s.subs)
    requires forall i, j :: 0 <= i < j < |order| ==> order[i] != order[j]
    ensures Progress(cfg, s, order, stuck, Reap(cfg, s, order, stuck), picked)
  {
    hide Progress, AllSound, ReapOne;
    if order == [] {
      picked := {};
      NothingPicked(cfg, s, stuck);
    } else {
      picked := ReapProgress(cfg, s, order[..|order| - 1], stuck);
      picked := PickOne(cfg, s, order, stuck, Reap(cfg, s, order[..|order| - 1], stuck), picked);
    }
  }

  lemma NothingPicked(cfg: Config, s: State, stuck: set<SubId>)
    ensures Progress(cfg, s, [], stuck, Reaping(s, 0), {})
  {
    assert s.subs - ({} - stuck) == s.subs;
  }

  lemma PickOne(cfg: Config, s: State, order: seq<SubId>, stuck: set<SubId>, r: Reaping, picked: set<SubId>)
    returns (picked': set<SubId>)
    requires AllSound(s.subs) && order != [] && order[|order| - 1] !in order[..|order| - 1]
    requires Progress(cfg, s, order[..|order| - 1], stuck, r, picked)
    ensures Progress(cfg, s, order, stuck, ReapOne(cfg, r, order[|order| - 1], order[|order| - 1] in stuck), picked')
  {
    hide FirstInOrder, Terminate;
    var id, rest := order[|order| - 1], order[..|order| - 1];
    assert order == rest + [id];
    var pick := FinalizedIn(s, id) && r.picked < cfg.maxTerminatable;
    LastPicked(cfg, s, order, picked, pick);
    picked' := picked;
    if pick {
      TerminateFinalized(cfg, r.state, id, id in stuck);
      LeavesToo(s.subs, picked, stuck, id);
      picked' := picked + {id};
    }
  }

  lemma LeavesToo(subs: map<SubId, Subscription>, picked: set<SubId>, stuck: set<SubId>, id: SubId)
    ensures subs - (picked + {id} - stuck) ==
            if id in stuck then subs - (picked - stuck) else subs - (picked - stuck) - {id}
  {
  }

  lemma LastPicked(cfg: Config, s: State, order: seq<SubId>, picked: set<SubId>, pick: bool)
    requires order != [] && FirstInOrder(s, order[..|order| - 1], picked) && order[|order| - 1] !in picked
    requires pick ==> forall id :: id in order[..|order| - 1] && FinalizedIn(s, id) ==> id in picked
    ensures FirstInOrder(s, order, if pick then picked + {order[|order| - 1]} else picked)
  {
    var last, rest := order[|order| - 1], order[..|order| - 1];
    var picked' := if pick then picked + {last} else picked;
    forall i, j | 0 <= i < j < |order| && order[j] in picked' && FinalizedIn(s, order[i]) ensures order[i] in picked' {
      assert rest[i] == order[i];
      if j < |rest| { assert rest[j] == order[j]; }
    }
  }

  lemma SubsetSize(a: set<SubId>, b: set<SubId>)
    requires a <= b
    ensures |b - a| == |b| - |a| >= 0
  {
    assert b == a + (b - a);
  }

  /**
   * A block end picks the first finalized subscriptions, as many as there are or as the limit allows. It removes
   * the picked ones whose deposit the currency gives back, changes no other subscription, and moves no fees.
   */
  lemma ReapExactly(cfg: Config, s: State, order: seq<SubId>, stuck: set<SubId>) returns (picked: set<SubId>)
    requires Orderly(cfg, s) && Lists(order, s.subs.Keys)
    ensures var s' := Step(cfg, s, EndBlock(order, stuck));
            && picked <= FinalizedIds(s) && |picked| == Min(|FinalizedIds(s)|, cfg.maxTerminatable)
            && FirstInOrder(s, order, picked)
            && s'.subs == s.subs - (picked - stuck) && s'.balances.fees == s.balances.fees
  {
    hide FirstInOrder, Step, Reap, AllSound;
    picked := ReapProgress(cfg, s, order, stuck);
    BatchSize(cfg, s, order, stuck, Reap(cfg, s, order, stuck), picked);
    EndBlockStep(cfg, s, order, stuck);
  }

  lemma BatchSize(cfg: Config, s: State, order: seq<SubId>, stuck: set<SubId>, r: Reaping, picked: set<SubId>)
    requires Progress(cfg, s, order, stuck, r, picked) && forall id :: id in s.subs ==> id in order
    ensures |picked| == Min(|FinalizedIds(s)|, cfg.maxTerminatable)
  {
    hide FirstInOrder;
    SubsetSize(picked, FinalizedIds(s));
    if |picked| < cfg.maxTerminatable {
      assert picked == FinalizedIds(s);
    }
  }

  /**
   * It removes exactly the lesser of the finalized subscriptions and the limit if and only if the currency refuses
   * none of the picked ones.
   */
  lemma ReapsFullBatchIff(cfg: Config, s: State, order: seq<SubId>, stuck: set<SubId>) returns (picked: set<SubId>)
    requires Orderly(cfg, s) && Lists(order, s.subs.Keys)
    ensures var s' := Step(cfg, s, EndBlock(order, stuck)); var batch := Min(|FinalizedIds(s)|, cfg.maxTerminatable);
            && |s.subs| - batch <= |s'.subs| <= |s.subs|
            && |s.subs| - |s'.subs| == |FinalizedIds(s)| - |FinalizedIds(s')|
            && (|s'.subs| == |s.subs| - batch <==> picked !! stuck)
            && picked <= FinalizedIds(s) && |picked| == batch && FirstInOrder(s, order, picked)
  {
    hide FirstInOrder, Reap, Orderly;
    picked := ReapExactly(cfg, s, order, stuck);
    var s' := Step(cfg, s, EndBlock(order, stuck));
    var gone := picked - stuck;
    assert FinalizedIds(s') == FinalizedIds(s) - gone;
    assert s'.subs.Keys == s.subs.Keys - gone;
    SubsetSize(gone, FinalizedIds(s));
    SubsetSize(gone, s.subs.Keys);
    SubsetSize(gone, picked);
    if |picked - gone| == 0 {
      assert picked - gone == {};
    }
    assert picked !! stuck <==> picked - gone == {};
  }

  // ---------- a backlog of finalized subscriptions drains ----------

  /** How many terminations a call has room for: a block end at which the currency refuses none has a full batch. */
  function RoomOf(cfg: Config, c: Call): nat {
    if c.EndBlock? && c.stuck == {} then cfg.maxTerminatable else 0
  }

  function Room(cfg: Config, calls: seq<Call>): nat {
    if calls == [] then 0 else RoomOf(cfg, calls[0]) + Room(cfg, calls[1..])
  }

  lemma OnlyDispatchFinalizes(cfg: Config, s: State, c: Call)
    requires Enabled(s, c) && !c.Dispatch? && !c.EndBlock?
    ensures FinalizedIds(Step(cfg, s, c)) <= FinalizedIds(s)
  {
  }

  lemma QuietStep(cfg: Config, s: State, c: Call)
    requires Orderly(cfg, s) && Enabled(s, c) && !c.Dispatch?
    ensures |FinalizedIds(Step(cfg, s, c))| <= |FinalizedIds(s)| - Min(|FinalizedIds(s)|, RoomOf(cfg, c))
  {
    hide Reap;
    if c.EndBlock? {
      var picked := ReapsFullBatchIff(cfg, s, c.order, c.stuck);
    } else {
      OnlyDispatchFinalizes(cfg, s, c);
      SubsetSize(FinalizedIds(Step(cfg, s, c)), FinalizedIds(s));
    }
  }

  /**
   * Over any run without dispatches no finalized subscription is added, and each block end at which the currency
   * refuses nothing works off a full batch until none is left.
   */
  lemma {:induction false} BacklogDrains(cfg: Config, s: State, calls: seq<Call>)
    requires Orderly(cfg, s) && ValidRun(cfg, s, calls)
    requires forall i :: 0 <= i < |calls| ==> !calls[i].Dispatch?
    ensures |FinalizedIds(Run(cfg, s, calls))| <= |FinalizedIds(s)|
    ensures |FinalizedIds(Run(cfg, s, calls))| > 0 ==>
            |FinalizedIds(Run(cfg, s, calls))| + Room(cfg, calls) <= |FinalizedIds(s)|
    decreases |calls|
  {
    hide Step, Orderly, FinalizedIds, Enabled, RoomOf;
    if calls != [] {
      QuietStep(cfg, s, calls[0]);
      StepOrderly(cfg, s, calls[0]);
      BacklogDrains(cfg, Step(cfg, s, calls[0]), calls[1..]);
    }
  }
}
