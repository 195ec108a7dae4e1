/** Closure jobs that a worker claimed and then left: when that happens, what ends it, and what it costs. */
module AbandonedJobs {
  import opened Wrappers
  import opened AuctionSession
  import opened BidTable
  import opened ProxyTable
  import opened HoldLedger
  import opened BidValidation
  import opened AuctionStore
  import opened StoreInvariant
  import opened CounterPlan
  import opened CallGuards
  import opened CounterInvariant
  import opened AuctionClosure
  import opened AuctionRuns
  import opened BidHistory
  import opened AuctionGuarantees
  import opened ClosureProgress

  /** The worker claims the job, and its transaction breaks. */
  predicate Abandons(s: Store, a: Action) {
    a.Working? && a.tx.Breaks? && Claimable(Reconcile(s, a.now).job, a.now)
  }

  /** A bid is persisted, or a manual close of an ended, unclosed auction commits. */
  predicate Revives(s: Store, a: Action) {
    match a
    case Bidding(r, e) => Accepts(s, r, e)
    case Closing(now, tx, _) => tx.Commits? && s.listing.endTime <= now && s.listing.status !in {Won, Unsold}
    case _ => false
  }

  // ----- which steps abandon a job, and which revive it

  lemma CounterKeepsUnabandoned(s: Store, time: int, e: Env)
    requires Current(s) && JustLed(s, time) && s.job.Some? && !Abandoned(s)
    ensures !Abandoned(ResolveProxies(s, time, e).0)
  {
    hide Core, PlanCounter, PlaceCounter, RowRefused, JustLed;
    var p := PlanCounter(s, time);
    if p.Counter? {
      PlannedCounter(s, time);
      NewestRowIsBacked(s);
      JustLedHasRows(s, time);
      PlaceCounterExits(s, p, e);
    }
  }

  lemma CallAbandonedIff(s: Store, r: Request, e: Env)
    requires Core(s)
    ensures Abandoned(PlaceBid(s, r, e).0) <==> Abandoned(s) && !Accepts(s, r, e)
  {
    hide Core, Commit, ResolveProxies, AdmitStandard, AdmitProxy, Matching, JustLed, WithMaximum, InsertFails,
      HoldGranted, Persisted, DrawsCounter, DrawsRefusal;
    var a := Admit(s, r, e.catalogOk);
    if a.MaxRaised? { MaximumLeavesJob(s, r); }
    if a.Admitted? {
      CommitsIff(s, r, e);
      CommitKeepsCore(s, r, e);
      if Accepts(s, r, e) {
        AcceptedCallPlans(s, r, e);
        LedIsDueAtEnd(s, r, a.accepted, a.status, e);
        LedIsUnabandoned(s, r, a.accepted, a.status, e);
        CounterKeepsUnabandoned(Commit(s, r, a.accepted, a.status, e).0, r.time, e);
      }
    }
  }

  lemma LedIsUnabandoned(s: Store, r: Request, accepted: Accepted, status: Status, e: Env)
    requires Commit(s, r, accepted, status, e).1.Ok?
    ensures !Abandoned(Commit(s, r, accepted, status, e).0)
  {
    hide Winner, HasId, UpsertMax, Release;
  }

  /** The job is abandoned after a step exactly if the step abandons it, or found it so and does not revive it. */
  lemma AbandonedIff(s: Store, a: Action)
    requires Core(s)
    ensures Abandoned(Step(s, a)) <==> Abandons(s, a) || (Abandoned(s) && !Revives(s, a))
  {
    hide Core, PlaceBid, Accepts, Settle, Listed, Decide, First, DeleteFor, Emit;
    if a.Bidding? { CallAbandonedIff(s, a.request, a.env); }
    CoreStatus(s);
  }

  // ----- no worker comes back to it

  /** Not a manual close, and not a bid before the given end. */
  predicate ComesTooLate(a: Action, endTime: int) {
    match a
    case Bidding(r, _) => endTime <= r.time
    case Closing(_, _, _) => false
    case _ => true
  }

  lemma LateCallDoesNothing(s: Store, r: Request, e: Env)
    requires s.listing.endTime <= r.time
    ensures PlaceBid(s, r, e).0 == s
  {
    if r.Standard? { StandardChainUnfolds(Context(s.listing, r.bidder, r.time, r.amount, Winner(s.bids))); }
  }

  /**
   * Once the end of an auction with an abandoned job has passed, nothing but a manual close moves it: bids come too
   * late, workers never claim the job again, and only withdrawals still change the maxima.
   */
  lemma {:induction false} OnlyAManualCloseHelps(s: Store, actions: seq<Action>)
    requires Abandoned(s) && forall a <- actions :: ComesTooLate(a, s.listing.endTime)
    ensures Run(s, actions) == s.(proxies := Run(s, actions).proxies)
    decreases actions
  {
    hide PlaceBid, DeleteFor;
    if actions != [] {
      assert actions[0] in actions;
      if actions[0].Bidding? { LateCallDoesNothing(s, actions[0].request, actions[0].env); }
      OnlyAManualCloseHelps(Step(s, actions[0]), actions[1..]);
    }
  }

  /** Workers alone never touch the store again, whatever their clocks and however long they try. */
  lemma {:induction false} WorkersNeverReclaim(s: Store, actions: seq<Action>)
    requires Abandoned(s) && forall a <- actions :: a.Working?
    ensures Run(s, actions) == s
    decreases actions
  {
    if actions != [] {
      assert actions[0] in actions;
      WorkersNeverReclaim(s, actions[1..]);
    }
  }

  /** The manual close of an ended auction finishes an abandoned job exactly when the winner can be charged. */
  lemma ManualCloseRescuesIff(s: Store, now: int, originalEnd: int)
    requires Inv(s, originalEnd) && Abandoned(s) && Open(s.listing.status) && s.listing.endTime <= now
    ensures var s' := CloseNow(s, now, Commits, None).0;
            && !Abandoned(s') && !Open(s'.listing.status)
            && s'.job.Some? && (s'.job.value.status == Done <==> Chargeable(s))
  {
    hide Inv, Listed, ReleaseAll, Decide, IsLive;
    assert s.(job := s.job) == s;
    ClosingDecision(s, s.job, now, originalEnd);
    var closed := CloseListing(s, now);
    var settling := closed.(job := Some(closed.job.value.(status := Settling, lockedUntil := None)));
    SettlesIff(closed, settling, now, originalEnd);
  }

  /** A closed auction whose settlement is abandoned is never settled: over every run, manual closes included, the
      winner is not charged and nobody's hold is given back. */
  lemma {:induction false} AbandonedSettlementIsFinal(s: Store, actions: seq<Action>)
    requires Abandoned(s) && s.listing.status in {Won, Unsold}
    ensures Run(s, actions) == s.(proxies := Run(s, actions).proxies)
    decreases actions
  {
    hide PlaceBid, DeleteFor;
    if actions != [] {
      if actions[0].Bidding? { ClosedTakesNoBids(s, actions[0].request, actions[0].env); }
      AbandonedSettlementIsFinal(Step(s, actions[0]), actions[1..]);
    }
  }
}
