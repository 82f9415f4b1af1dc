/** Runs of the manager pallet: any sequence of calls, dispatches, block ends and outside transfers. */
module ManagerRuns {
  import opened Outcomes
  import opened Saturating
  import opened Currency
  import opened Subscriptions
  import opened ManagerSpec

  datatype Call =
    | CreateCall(caller: AccountId, params: CreateParams, generated: SubId, now: uint32, noFees: bool, noDeposit: bool)
    | PauseCall(caller: AccountId, target: SubId)
    | ReactivateCall(caller: AccountId, target: SubId)
    | UpdateCall(caller: AccountId, target: SubId, changes: UpdateParams, now: uint32, refused: bool)
    | KillCall(caller: AccountId, target: SubId, noFees: bool, noDeposit: bool)
    | Dispatch(now: uint32, order: seq<SubId>, limits: map<SubId, Limit>, unsent: set<SubId>)
    | EndBlock(order: seq<SubId>, stuck: set<SubId>)
    | Transfer(source: AccountId, dest: AccountId, amount: nat)

  /** `order` lists every element of `keys` exactly once. */
  ghost predicate Lists(order: seq<SubId>, keys: set<SubId>) {
    && (forall i, j :: 0 <= i < j < |order| ==> order[i] != order[j])
    && (forall id :: id in order <==> id in keys)
  }

  /** Storage iteration visits every stored subscription once, in some order. */
  ghost predicate Enabled(s: State, c: Call) {
    match c
    case Dispatch(_, order, _, _) => Lists(order, s.subs.Keys)
    case EndBlock(order, _) => Lists(order, s.subs.Keys)
    case _ => true
  }

  /** A dispatchable that fails leaves storage as it was. */
  function Commit(s: State, r: Result<State, Error>): State {
    if r.Success? then r.value else s
  }

  ghost function Step(cfg: Config, s: State, c: Call): State
    requires Enabled(s, c)
  {
    match c
    case CreateCall(caller, p, generated, now, noFees, noDeposit) =>
      Commit(s, Create(cfg, s, caller, p, generated, now, noFees, noDeposit))
    case PauseCall(caller, target) => Commit(s, Pause(s, caller, target))
    case ReactivateCall(caller, target) => Commit(s, Reactivate(s, caller, target))
    case UpdateCall(caller, target, changes, now, refused) =>
      Commit(s, Update(cfg, s, caller, target, changes, now, refused))
    case KillCall(caller, target, noFees, noDeposit) => Commit(s, Kill(cfg, s, caller, target, noFees, noDeposit))
    case Dispatch(now, order, limits, unsent) => Distribute(cfg, s, order, now, limits, unsent)
    case EndBlock(order, stuck) => Reap(cfg, s, order, stuck).state
    case Transfer(source, dest, amount) => s.(balances := TransferFree(s.balances, source, dest, amount))
  }

  lemma CreateStep(cfg: Config, s: State, caller: AccountId, p: CreateParams, generated: SubId, now: uint32)
    ensures Step(cfg, s, CreateCall(caller, p, generated, now, false, false)) ==
            Commit(s, Create(cfg, s, caller, p, generated, now, false, false))
  {
    hide Create;
  }

  lemma DispatchStep(cfg: Config, s: State, now: uint32, order: seq<SubId>, limits: map<SubId, Limit>,
                     unsent: set<SubId>)
    requires Lists(order, s.subs.Keys)
    ensures Step(cfg, s, Dispatch(now, order, limits, unsent)) == Distribute(cfg, s, order, now, limits, unsent)
  {
    hide Distribute;
  }

  lemma EndBlockStep(cfg: Config, s: State, order: seq<SubId>, stuck: set<SubId>)
    requires Lists(order, s.subs.Keys)
    ensures Step(cfg, s, EndBlock(order, stuck)) == Reap(cfg, s, order, stuck).state
  {
    hide Reap;
  }

  ghost predicate ValidRun(cfg: Config, s: State, calls: seq<Call>)
    decreases |calls|
  {
    calls != [] ==> Enabled(s, calls[0]) && ValidRun(cfg, Step(cfg, s, calls[0]), calls[1..])
  }

  ghost function Run(cfg: Config, s: State, calls: seq<Call>): State
    requires ValidRun(cfg, s, calls)
    decreases |calls|
  {
    if calls == [] then s else Run(cfg, Step(cfg, s, calls[0]), calls[1..])
  }

  /** Nothing stored, nothing on hold, nothing done; free balances are arbitrary. */
  predicate Genesis(s: State) {
    && s.subs == map[] && s.counter == 0
    && s.balances.fees == map[] && s.balances.deposit == map[]
    && s.journal.Empty?
  }
}
