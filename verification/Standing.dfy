/** A suspension lasts: from it to the reactivation a subscription is paused and nothing is sent to it. */
module Standing {
  import opened Saturating
  import opened Currency
  import opened Subscriptions
  import opened ManagerSpec
  import opened ManagerRuns

  /** The last of the creation, suspension and reactivation entries of a subscription is a suspension. */
  predicate SuspendedLast(j: Journal, id: SubId) {
    match j
    case Empty => false
    case Then(past, Created(k, _)) => k != id && SuspendedLast(past, id)
    case Then(past, Suspended(k)) => k == id || SuspendedLast(past, id)
    case Then(past, Reactivated(k)) => k != id && SuspendedLast(past, id)
    case Then(past, _) => SuspendedLast(past, id)
  }

  /** No send to the subscription lies between a suspension and the next reactivation or creation. */
  predicate NoSendWhileSuspended(j: Journal, id: SubId) {
    match j
    case Empty => true
    case Then(past, SendAttempted(k, _, _)) => NoSendWhileSuspended(past, id) && (k == id ==> !SuspendedLast(past, id))
    case Then(past, _) => NoSendWhileSuspended(past, id)
  }

  /** While it is stored and not finalized, a subscription is paused exactly if it was suspended last. */
  ghost predicate Stands(s: State, id: SubId) {
    && NoSendWhileSuspended(s.journal, id)
    && (id in s.subs && !s.subs[id].state.Finalized? ==> (s.subs[id].state.Paused? <==> SuspendedLast(s.journal, id)))
  }

  /** Entries about others, and about anything but creation, suspension, reactivation and sends, do not matter. */
  lemma Beside(j: Journal, e: Entry, id: SubId)
    requires e.id != id || !(e.Created? || e.Suspended? || e.Reactivated? || e.SendAttempted?)
    ensures SuspendedLast(Then(j, e), id) == SuspendedLast(j, id)
    ensures NoSendWhileSuspended(Then(j, e), id) == NoSendWhileSuspended(j, id)
  {
  }

  lemma TerminateStands(cfg: Config, s: State, target: SubId, noFees: bool, noDeposit: bool, id: SubId)
    requires Stands(s, id) && target in s.subs
    ensures Stands(Terminate(cfg, s, target, noFees, noDeposit).state, id)
  {
    hide ManageDiffFees, Release, DepositFor, SuspendedLast, NoSendWhileSuspended;
    var released := FeesReleased(target, cfg.price(s.subs[target].creditsLeft));
    Beside(s.journal, released, id);
    Beside(Then(s.journal, released), Entry.Terminated(target), id);
  }

  lemma UnpaidStands(cfg: Config, s: State, target: SubId, now: uint32, limit: Limit, unsent: bool, id: SubId)
    requires Stands(s, id) && target in s.subs && !Collects(cfg, s, s.subs[target], limit)
    ensures Stands(Deliver(cfg, s, target, now, limit, unsent), id)
  {
    hide Collects, AfterCollection, CreditFee, Taken;
    var failed := Then(s.journal, FailedCollection(cfg, s, s.subs[target], limit, 0));
    Beside(s.journal, failed.latest, id);
    if id != target { Beside(failed, Suspended(target), id); }
  }

  lemma ServedStands(cfg: Config, s: State, target: SubId, now: uint32, limit: Limit, unsent: bool, id: SubId)
    requires Stands(s, id) && target in s.subs && s.subs[target].state.Active?
    requires Collects(cfg, s, s.subs[target], limit)
    ensures Stands(Deliver(cfg, s, target, now, limit, unsent), id)
  {
    hide Collects, AfterCollection, CreditFee, Taken;
    var sub := s.subs[target];
    var paid := Then(s.journal, FeesCollected(sub.id, CreditFee(cfg, sub)));
    var tried := Then(paid, SendAttempted(target, now, sub.frequency));
    Beside(s.journal, paid.latest, id);
    Beside(tried, Entry.Distributed(target), id);
    if id != target {
      Beside(paid, tried.latest, id);
      Beside(tried, Suspended(target), id);
    } else {
      assert NoSendWhileSuspended(tried, id) && !SuspendedLast(tried, id);
    }
  }

  lemma IdleStands(cfg: Config, s: State, target: SubId, limit: Limit, id: SubId)
    requires Stands(s, id) && target in s.subs
    ensures Stands(Idle(cfg, s, target, limit), id)
  {
    hide Collects, AfterCollection, CreditFee, Taken;
    var sub := s.subs[target];
    Beside(s.journal, FeesCollected(sub.id, CreditFee(cfg, sub)), id);
    Beside(s.journal, FailedCollection(cfg, s, sub, limit, CreditFee(cfg, sub)), id);
  }

  lemma {:induction false} DistributeStands(cfg: Config, s: State, order: seq<SubId>, now: uint32,
                                            limits: map<SubId, Limit>, unsent: set<SubId>, id: SubId)
    requires Stands(s, id) && forall k :: k in order ==> k in s.subs
    ensures Stands(Distribute(cfg, s, order, now, limits, unsent), id)
  {
    hide Stands, Deliver, Idle, Collects;
    if order != [] {
      var target, rest := order[|order| - 1], order[..|order| - 1];
      DistributeStands(cfg, s, rest, now, limits, unsent, id);
      var before := Distribute(cfg, s, rest, now, limits, unsent);
      var limit := LimitFor(limits, target);
      if !Due(before.subs[target], now) {
        IdleStands(cfg, before, target, limit, id);
      } else if Collects(cfg, before, before.subs[target], limit) {
        ServedStands(cfg, before, target, now, limit, target in unsent, id);
      } else {
        UnpaidStands(cfg, before, target, now, limit, target in unsent, id);
      }
    }
  }

  lemma {:induction false} ReapStands(cfg: Config, s: State, order: seq<SubId>, stuck: set<SubId>, id: SubId)
    requires Stands(s, id)
    ensures Stands(Reap(cfg, s, order, stuck).state, id)
  {
    hide Stands, Terminate;
    if order != [] {
      var target, rest := order[|order| - 1], order[..|order| - 1];
      ReapStands(cfg, s, rest, stuck, id);
      var r := Reap(cfg, s, rest, stuck).state;
      if target in r.subs { TerminateStands(cfg, r, target, target in stuck, target in stuck, id); }
    }
  }

  lemma StepStands(cfg: Config, s: State, c: Call, id: SubId)
    requires Stands(s, id) && Enabled(s, c)
    ensures Stands(Step(cfg, s, c), id)
  {
    hide Terminate, Distribute, Reap, ManageDiffFees, Hold, DepositFor;
    match c
    case KillCall(_, target, noFees, noDeposit) =>
      if target in s.subs { TerminateStands(cfg, s, target, noFees, noDeposit, id); }
    case Dispatch(now, order, limits, unsent) => DistributeStands(cfg, s, order, now, limits, unsent, id);
    case EndBlock(order, stuck) => ReapStands(cfg, s, order, stuck, id);
    case _ =>
  }

  lemma {:induction false} RunStands(cfg: Config, s: State, calls: seq<Call>, id: SubId)
    requires Stands(s, id) && ValidRun(cfg, s, calls)
    ensures Stands(Run(cfg, s, calls), id)
    decreases |calls|
  {
    hide Stands, Step, Enabled;
    if calls != [] {
      StepStands(cfg, s, calls[0], id);
      RunStands(cfg, Step(cfg, s, calls[0]), calls[1..], id);
    }
  }

  /**
   * In every run a stored subscription that is not finalized is paused exactly if it was suspended, by its subscriber
   * or by a failed collection or send, and not reactivated since; and no send was made to it in the meantime.
   */
  lemma PausedIffSuspended(cfg: Config, s: State, calls: seq<Call>, id: SubId)
    requires Genesis(s) && ValidRun(cfg, s, calls)
    ensures var s' := Run(cfg, s, calls);
            && NoSendWhileSuspended(s'.journal, id)
            && (id in s'.subs && !s'.subs[id].state.Finalized? ==>
                  (s'.subs[id].state.Paused? <==> SuspendedLast(s'.journal, id)))
  {
    RunStands(cfg, s, calls, id);
  }
}
