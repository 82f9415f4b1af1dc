/** The two pallets together: an accepted pulse is distributed in the same block, block ends reach both. */
module Chain {
  import opened Outcomes
  import opened Saturating
  import opened Scale
  import Beacon
  import opened Subscriptions
  import opened ManagerSpec
  import opened ManagerRuns
  import opened Currency
  import Histories
  import Quotes
  import Solvency

  /** The parameters the two pallets are configured with. */
  datatype Setup = Setup(verify: Beacon.Verifier, maxSigs: uint8, cfg: Config)

  datatype ChainState = ChainState(beacon: Beacon.BeaconState, manager: State)

  datatype ChainEvent =
    | Pulse(submission: Beacon.Submission, order: seq<SubId>, limits: map<SubId, Limit>, unsent: set<SubId>)
    | Key(key: Bytes)
    | ManagerCall(call: Call)
    | BlockEnds(order: seq<SubId>, stuck: set<SubId>)

  ghost predicate Accepts(u: Setup, s: ChainState, e: ChainEvent) {
    e.Pulse? && Beacon.TrySubmit(u.verify, u.maxSigs, s.beacon, e.submission).Success?
  }

  /** What an event amounts to for the manager pallet. */
  ghost function CallOf(u: Setup, s: ChainState, e: ChainEvent): Option<Call>
    requires s.beacon.block <= U32_MAX
  {
    match e
    case Pulse(_, order, limits, unsent) =>
      if Accepts(u, s, e) then Some(Dispatch(s.beacon.block, order, limits, unsent)) else None
    case Key(_) => None
    case ManagerCall(call) => Some(call)
    case BlockEnds(order, stuck) => Some(EndBlock(order, stuck))
  }

  /** Block numbers fit their type, storage iterations are complete, and pulses only come through the beacon. */
  ghost predicate Possible(u: Setup, s: ChainState, e: ChainEvent) {
    && s.beacon.block <= U32_MAX
    && (e.ManagerCall? ==> !e.call.Dispatch? && !e.call.EndBlock?)
    && var c := CallOf(u, s, e); c.Some? ==> Enabled(s.manager, c.value)
  }

  ghost function Step(u: Setup, s: ChainState, e: ChainEvent): ChainState
    requires Possible(u, s, e)
  {
    var beacon := match e
      case Pulse(submission, _, _, _) => Beacon.Next(u.verify, u.maxSigs, s.beacon, Beacon.Submit(submission))
      case Key(key) => Beacon.Next(u.verify, u.maxSigs, s.beacon, Beacon.SetConfig(key))
      case ManagerCall(_) => s.beacon
      case BlockEnds(_, _) => Beacon.Next(u.verify, u.maxSigs, s.beacon, Beacon.EndOfBlock);
    var c := CallOf(u, s, e);
    ChainState(beacon, if c.Some? then ManagerRuns.Step(u.cfg, s.manager, c.value) else s.manager)
  }

  ghost predicate PossibleRun(u: Setup, s: ChainState, events: seq<ChainEvent>)
    decreases |events|
  {
    events != [] ==> Possible(u, s, events[0]) && PossibleRun(u, Step(u, s, events[0]), events[1..])
  }

  ghost function RunChain(u: Setup, s: ChainState, events: seq<ChainEvent>): ChainState
    requires PossibleRun(u, s, events)
    decreases |events|
  {
    if events == [] then s else RunChain(u, Step(u, s, events[0]), events[1..])
  }

  /** The manager calls of a run of the chain, in order. */
  ghost function CallsOf(u: Setup, s: ChainState, events: seq<ChainEvent>): seq<Call>
    requires PossibleRun(u, s, events)
    decreases |events|
  {
    if events == [] then []
    else
      var c := CallOf(u, s, events[0]);
      (if c.Some? then [c.value] else []) + CallsOf(u, Step(u, s, events[0]), events[1..])
  }

  /** A block has dispatched already only if its once-per-block flag is up. */
  predicate UsedUp(s: ChainState, after: int) {
    after < s.beacon.block || (after == s.beacon.block && s.beacon.didUpdate)
  }

  /**
   * A run of the chain is, for the manager, a valid run with at most one dispatch per block and one for every
   * pulse the beacon accepted, so all that holds of manager runs holds of the chain.
   */
  lemma {:induction false} ChainIsManagerRun(u: Setup, s: ChainState, events: seq<ChainEvent>, after: int)
    requires PossibleRun(u, s, events) && UsedUp(s, after)
    ensures var calls := CallsOf(u, s, events);
            && ValidRun(u.cfg, s.manager, calls)
            && Run(u.cfg, s.manager, calls) == RunChain(u, s, events).manager
            && Quotes.Increasing(calls, after)
            && |RunChain(u, s, events).beacon.dispatched| == |s.beacon.dispatched| + Quotes.Dispatches(calls)
    decreases |events|
  {
    hide Enabled, ManagerRuns.Step;
    if events != [] {
      var e := events[0];
      var c, s' := CallOf(u, s, e), Step(u, s, e);
      ChainIsManagerRun(u, s', events[1..], if Accepts(u, s, e) then s.beacon.block else after);
      var rest := CallsOf(u, s', events[1..]);
      if c.Some? {
        assert ([c.value] + rest)[1..] == rest;
      } else {
        assert [] + rest == rest;
      }
    }
  }

  /** Storage of both pallets after `past` and the creation of a subscription. */
  ghost function Created(u: Setup, s0: ChainState, past: seq<ChainEvent>, who: AccountId, p: CreateParams,
                         generated: SubId): ChainState
    requires PossibleRun(u, s0, past) && RunChain(u, s0, past).beacon.block <= U32_MAX
    requires var s := RunChain(u, s0, past);
             Create(u.cfg, s.manager, who, p, generated, s.beacon.block, false, false).Success?
  {
    var s := RunChain(u, s0, past);
    s.(manager := Create(u.cfg, s.manager, who, p, generated, s.beacon.block, false, false).value)
  }

  /**
   * On the whole chain: create a subscription at any point of any run and leave it alone. Unless a collection from it
   * fails, it is over exactly when the beacon has accepted as many pulses as it has credits, and then it has had a
   * delivery for each period they cover; with the credits quoted for `lifetime` pulses, at least that many. No
   * collection fails if its owner's hold is not drained. That dispatches come in increasing blocks is proved, not
   * assumed.
   */
  lemma QuoteSufficesOnChain(u: Setup, s0: ChainState, past: seq<ChainEvent>, who: AccountId, p: CreateParams,
                             generated: SubId, lifetime: uint32, events: seq<ChainEvent>)
    requires Genesis(s0.manager) && PossibleRun(u, s0, past)
    requires var s := RunChain(u, s0, past);
             && s.beacon.block <= U32_MAX
             && Create(u.cfg, s.manager, who, p, generated, s.beacon.block, false, false).Success?
    requires var s1 := Created(u, s0, past, who, p, generated);
             var id := NewSubscription(who, p, generated, s1.beacon.block).id;
             && PossibleRun(u, s1, events)
             && (forall i :: 0 <= i < |CallsOf(u, s1, events)| ==> Quotes.LeavesAlone(CallsOf(u, s1, events)[i], id))
    ensures var s1 := Created(u, s0, past, who, p, generated);
            var id, end := NewSubscription(who, p, generated, s1.beacon.block).id, RunChain(u, s1, events);
            var accepted := |end.beacon.dispatched| - |s1.beacon.dispatched|;
            var s', life := end.manager, Histories.LifeOf(end.manager.journal, id);
            && life.Some? && (Solvency.NeverDrained(s'.journal, who) ==> !Quotes.Failed(s', id))
            && (!Quotes.Failed(s', id) ==>
                  && (Quotes.Over(s', id) <==> accepted >= p.credits)
                  && (Quotes.Over(s', id) ==> p.credits <= life.value.delivered * Quotes.Period(p.frequency))
                  && (Quotes.Over(s', id) && p.credits == Quotes.CalculateCredits(p.frequency, lifetime) ==>
                        life.value.delivered >= lifetime))
  {
    hide PossibleRun, RunChain, CallsOf, Create, Run, ValidRun, Quotes.LeavesAlone, Solvency.NeverDrained,
         Quotes.CalculateCredits, Quotes.Failed, Quotes.Over, Quotes.Period, Quotes.Dispatches, Histories.LifeOf;
    var s := RunChain(u, s0, past);
    ChainIsManagerRun(u, s0, past, -1);
    var s1 := Created(u, s0, past, who, p, generated);
    ChainIsManagerRun(u, s1, events, -1);
    var before, calls := CallsOf(u, s0, past), CallsOf(u, s1, events);
    Quotes.CreditsBuyPulses(u.cfg, s0.manager, before, who, p, generated, s.beacon.block, calls);
    Quotes.QuoteSuffices(u.cfg, s0.manager, before, who, p, generated, s.beacon.block, lifetime, calls);
  }
}
