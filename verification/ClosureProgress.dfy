/** When the closure job is due, and when a worker pass finishes an auction. */
module ClosureProgress {
  import opened Wrappers
  import opened AuctionSession
  import opened BidTable
  import opened ProxyTable
  import opened HoldLedger
  import opened BidValidation
  import opened AuctionStore
  import opened StoreInvariant
  import opened CounterPlan
  import opened CallGuards
  import opened CounterInvariant
  import opened AuctionClosure
  import opened AuctionRuns
  import opened BidHistory
  import opened AuctionGuarantees

  // ----- the due time of an open auction's job

  predicate DueAtEnd(s: Store) { s.job.Some? ==> s.job.value.dueAt == s.listing.endTime }

  /** The worker picks up the job before the end, or a bid is persisted: either way the job is scheduled anew. */
  predicate Reschedules(s: Store, a: Action) {
    match a
    case Bidding(r, e) => Accepts(s, r, e)
    case Working(now, tx, _) => Claimable(s.job, now) && now < s.listing.endTime && !tx.Breaks?
    case _ => false
  }

  /** The worker's closing transaction fails, which puts the job off. */
  predicate PutsOff(s: Store, a: Action) {
    a.Working? && Claimable(Reconcile(s, a.now).job, a.now) && s.listing.endTime <= a.now && a.tx.Fails?
  }

  lemma LedIsDueAtEnd(s: Store, r: Request, accepted: Accepted, status: Status, e: Env)
    requires Commit(s, r, accepted, status, e).1.Ok?
    ensures var s1 := Commit(s, r, accepted, status, e).0; s1.job.Some? && DueAtEnd(s1)
  {
    hide Winner, HasId, UpsertMax, Release;
  }

  lemma CounterKeepsDueAtEnd(s: Store, time: int, e: Env, originalEnd: int)
    requires Inv(s, originalEnd) && JustLed(s, time) && DueAtEnd(s) && s.job.Some?
    ensures DueAtEnd(ResolveProxies(s, time, e).0)
  {
    hide Inv, PlanCounter, PlaceCounter, RowRefused;
    var p := PlanCounter(s, time);
    if p.Counter? {
      InvIsCore(s, originalEnd);
      PlannedCounter(s, time);
      NewestRowIsBacked(s);
      PlaceCounterExits(s, p, e);
    }
  }

  lemma CallSchedules(s: Store, r: Request, e: Env, originalEnd: int)
    requires Inv(s, originalEnd)
    ensures DueAtEnd(PlaceBid(s, r, e).0) <==> Accepts(s, r, e) || DueAtEnd(s)
  {
    hide Inv, Core, Commit, ResolveProxies, AdmitStandard, AdmitProxy, Matching, JustLed, WithMaximum, InsertFails,
      HoldGranted;
    InvIsCore(s, originalEnd);
    var a := Admit(s, r, e.catalogOk);
    if a.MaxRaised? { MaximumLeavesJob(s, r); }
    if a.Admitted? {
      CommitsIff(s, r, e);
      CommitKeepsInv(s, r, e, originalEnd);
      var (s1, result) := Commit(s, r, a.accepted, a.status, e);
      if result.Ok? {
        PersistedIsJustLed(s, r, result.value, s1);
        LedIsDueAtEnd(s, r, a.accepted, a.status, e);
        CounterKeepsDueAtEnd(s1, r.time, e, originalEnd);
      }
    }
  }

  lemma MaximumLeavesJob(s: Store, r: Request)
    ensures WithMaximum(s, r).job == s.job && WithMaximum(s, r).listing == s.listing
  {
  }

  lemma WorkerSchedules(s: Store, now: int, tx: Tx, failAt: Option<nat>, originalEnd: int)
    requires Inv(s, originalEnd) && Open(s.listing.status)
             && Open(ProcessPending(s, now, tx, failAt).0.listing.status)
    ensures DueAtEnd(ProcessPending(s, now, tx, failAt).0) <==>
              || (Claimable(s.job, now) && now < s.listing.endTime && !tx.Breaks?)
              || (DueAtEnd(s) && !PutsOff(s, Working(now, tx, failAt)))
  {
    hide Inv, Settle, Listed, First;
    InvJob(s, originalEnd);
  }

  /** While an auction stays open its job is due at the end, except exactly from a failed closing attempt until the
      next reschedule. */
  lemma DueAtEndIff(s: Store, a: Action, originalEnd: int)
    requires Inv(s, originalEnd) && Open(s.listing.status) && Open(Step(s, a).listing.status)
    ensures DueAtEnd(Step(s, a)) <==> Reschedules(s, a) || (DueAtEnd(s) && !PutsOff(s, a))
  {
    hide Inv, PlaceBid, ProcessPending, Accepts, Settle, Listed, First, DeleteFor;
    if a.Bidding? { CallSchedules(s, a.request, a.env, originalEnd); }
    if a.Working? { WorkerSchedules(s, a.now, a.tx, a.failAt, originalEnd); }
  }

  // ----- progress

  /** The winner the closing would name, or named, can be charged. */
  predicate Chargeable(s: Store) {
    !s.hasWallet || Decide(s.listing, Listed(s.bids)).status == Unsold || Funded(s)
  }

  /**
   * From every store in order, at any clock at which the auction has ended and its job is due, one worker pass with a
   * willing wallet and database leaves the job done just when the winner can be charged and the job is not abandoned.
   */
  lemma WorkerSettlesIff(s: Store, now: int, originalEnd: int)
    requires Inv(s, originalEnd) && s.listing.endTime <= now
    requires s.job.Some? ==> s.job.value.dueAt <= now && s.job.value.status != Done
    ensures var s' := ProcessPending(s, now, Commits, None).0;
            s'.job.Some? && (s'.job.value.status == Done <==> Chargeable(s) && !Abandoned(s))
  {
    hide Inv, Listed, ReleaseAll, Decide, IsLive;
    InvJob(s, originalEnd);
    ReconcileKeepsInv(s, now, originalEnd);
    var s0 := Reconcile(s, now);
    InvJob(s0, originalEnd);
    var claimed := s0.(job := Some(s0.job.value.(status := Processing, lockedUntil := Some(now + CLAIM_SECS))));
    if Abandoned(s0) {
    } else if s0.job.value.status == Settling {
      ClosedDecision(s0, originalEnd);
      SettlesIff(claimed, s0, now, originalEnd);
    } else {
      var closed := CloseListing(claimed, now);
      assert claimed == s0.(job := claimed.job);
      ClosingDecision(s0, claimed.job, now, originalEnd);
      var settling := closed.(job := Some(closed.job.value.(status := Settling, lockedUntil := None)));
      SettlesIff(closed, settling, now, originalEnd);
    }
  }

  lemma InvJob(s: Store, originalEnd: int)
    requires Inv(s, originalEnd)
    ensures s.job.Some? && !Abandoned(s) ==> s.job.value.lockedUntil.None?
    ensures Open(s.listing.status) && s.job.Some? && !Abandoned(s) ==> s.job.value.status == Pending
    ensures !Open(s.listing.status) ==>
              s.listing.status in {Won, Unsold} && s.job.Some? && s.job.value.status in {Settling, Done, Processing}
  {
  }

  lemma ClosedDecision(s: Store, originalEnd: int)
    requires Inv(s, originalEnd) && !Open(s.listing.status)
    ensures Decide(s.listing, Listed(s.bids)).status == s.listing.status
  {
    hide HoldsOk, OutbidOk, LatestEnd, ProxiesOk, Settled, Listed;
    ListedNewest(s);
  }

  lemma ClosingDecision(s: Store, job: Option<Job>, now: int, originalEnd: int)
    requires Inv(s, originalEnd) && Open(s.listing.status)
    ensures var closed := CloseListing(s.(job := job), now);
            && Unsettled(closed, originalEnd) && closed.bids == s.bids && closed.holds == s.holds
            && closed.hasWallet == s.hasWallet
            && closed.listing.status == Decide(s.listing, Listed(s.bids)).status
  {
    hide Inv, Listed, Decide, Unsettled;
    ClosingLeavesUnsettled(s, job, now, originalEnd);
  }

  /** One attempt with a willing wallet marks the job done just when there is no winner to charge or its hold is
      live. */
  lemma SettlesIff(s: Store, s0: Store, now: int, originalEnd: int)
    requires s.job.Some? && s0 == s.(job := Some(s.job.value.(status := Settling, lockedUntil := None)))
    requires Inv(s0, originalEnd) && s.listing.status in {Won, Unsold}
    ensures var s' := AttemptSettlement(s, now, None).0;
            s'.job.Some? && (s'.job.value.status == Done <==> !s.hasWallet || s.listing.status == Unsold || Funded(s))
  {
    hide Inv, Settle;
    SettlementFinishesIff(s0, now, originalEnd);
    SettleIgnoresJob(s, s0.job, None);
  }

  lemma SettleIgnoresJob(s: Store, job: Option<Job>, failAt: Option<nat>)
    ensures Settle(s.(job := job), failAt) == Settle(s, failAt)
  {
  }

  /** A pass that fails without breaking is due again thirty seconds later, with one attempt more on its account; one
      whose transaction breaks leaves a job that no clock makes claimable. */
  lemma FailedAttemptRetriesIff(s: Store, now: int, tx: Tx, failAt: Option<nat>, originalEnd: int)
    requires Inv(s, originalEnd)
    requires var reply := ProcessPending(s, now, tx, failAt).1; reply.ClosureFailed? || reply.SettlementFailed?
    ensures var s' := ProcessPending(s, now, tx, failAt).0;
            s'.job.Some? && if tx.Breaks? then
              Abandoned(s') && forall clock :: !Claimable(s'.job, clock)
            else
              && s'.job.value.status == (if tx.Commits? || !Open(s.listing.status) then Settling else Pending)
              && s'.job.value.attempts == (if s.job.Some? then s.job.value.attempts else 0) + 1
              && s'.job.value.dueAt == now + RETRY_AFTER_SECS
              && forall clock :: Claimable(s'.job, clock) <==> now + RETRY_AFTER_SECS <= clock
  {
    hide Inv, Settle, Listed, Decide, First;
    InvJob(s, originalEnd);
  }
}
