/** What a call that loses its counter's release breaks and what it does not, and what becomes of the displaced hold. */
module LostReleases {
  import opened Wrappers
  import opened AuctionSession
  import opened BidTable
  import opened ProxyTable
  import opened HoldLedger
  import opened BidValidation
  import opened AuctionStore
  import opened StoreInvariant
  import opened CounterPlan
  import opened CallGuards
  import opened CounterInvariant
  import opened AuctionClosure
  import opened AuctionRuns
  import opened BidHistory
  import opened StrayHolds
  import opened AuctionGuarantees
  import opened ClosureProgress

  // ----- the store such a call leaves

  /** Every row has its 120 seconds. */
  predicate EveryBidHasItsTime(s: Store) {
    forall x <- s.bids :: x.time + ANTI_SNIPING_EXTENSION_SECS <= s.listing.endTime
  }

  lemma InvGivesTime(s: Store, originalEnd: int)
    requires Inv(s, originalEnd)
    ensures EveryBidHasItsTime(s) && OutbidOk(s.outbox, s.bids) && HoldsOk(s.hasWallet, s.bids, s.holds)
    ensures NoneConverted(s.holds) <== Open(s.listing.status)
  {
  }

  /** The counter's row on top: its time, the names of the overtaken, and the holds of the others. */
  lemma CounterRowBreaks(s: Store, time: int, e: Env, originalEnd: int)
    requires Inv(s, originalEnd) && JustLed(s, time) && s.hasWallet
    requires var p := PlanCounter(s, time); p.Counter? && ReleaseLost(s, p, e)
    ensures var p := PlanCounter(s, time);
            var s' := ResolveProxies(s, time, e).0;
            && s'.bids == CounterRows(s, p, e) && s'.bids != [] && Last(s'.bids).time == time + 1
            && s'.listing == s.listing && s'.outbox == s.outbox && s'.job == s.job && s'.hasWallet
            && Last(s.bids).amount < Last(s'.bids).amount
            && (EveryBidHasItsTime(s') <==> time + ANTI_SNIPING_EXTENSION_SECS < s.listing.endTime)
            && (OutbidOk(s'.outbox, s'.bids) <==> p.Raises())
            && (HoldsOk(true, s'.bids, s'.holds) <==> p.Raises())
            && (!p.Raises() ==> IsLive(s'.holds, Last(s.bids).hold) && s.bids <= s'.bids && |s.bids| < |s'.bids|)
  {
    hide Inv, Core, PlanCounter, PlaceCounter, RowRefused, JustLed, OutbidOk, HoldsOk;
    var p, row := PlanCounter(s, time), CounterRow(s, PlanCounter(s, time), e);
    InvIsCore(s, originalEnd);
    PlannedCounter(s, time);
    NewestRowIsBacked(s);
    JustLedHasRows(s, time);
    PlaceCounterExits(s, p, e);
    InvGivesTime(s, originalEnd);
    JustLedIsOpen(s, time);
    if p.Raises() {
      OutbidOkRaised(s.outbox, s.bids, row);
      RaisedIsBacked(s.bids, s.holds, row);
    } else {
      OvertakenIsUnnamed(s.outbox, s.bids, row);
      OvertakenIsStillLive(s.bids, s.holds, row);
    }
  }

  lemma JustLedIsOpen(s: Store, time: int)
    requires JustLed(s, time)
    ensures Open(s.listing.status) && Last(s.bids).time == time && (s.hasWallet ==> IsLive(s.holds, Last(s.bids).hold))
  {
  }

  lemma RaisedIsBacked(rows: seq<BidRow>, holds: seq<Hold>, row: BidRow)
    requires rows != [] && HoldsOk(true, rows, holds) && row.bidder == Last(rows).bidder && row.hold == Some(|holds|)
    ensures HoldsOk(true, Raised(rows, row), holds + [Hold(row.bidder, Rupiah(row.amount), Live)])
  {
    forall x <- Raised(rows, row) ensures x in rows || x == row {}
  }

  lemma OvertakenIsUnnamed(events: seq<Event>, rows: seq<BidRow>, row: BidRow)
    requires rows != [] && OutbidOk(events, rows)
    ensures !OutbidOk(events, rows + [row])
  {
    assert |BiddersOf(rows + [row])[..|rows|]| == |rows|;
  }

  lemma OvertakenIsStillLive(rows: seq<BidRow>, holds: seq<Hold>, row: BidRow)
    requires rows != [] && IsLive(holds, Last(rows).hold)
    ensures var held := holds + [Hold(row.bidder, Rupiah(row.amount), Live)];
            !HoldsOk(true, rows + [row], held) && IsLive(held, Last(rows).hold)
  {
    assert (rows + [row])[|rows| - 1] == Last(rows);
  }

  /** What a lost release breaks, promise by promise: the cached highest always, the newest bid's 120 seconds just when
      the caller's end was its own, and names and holds of the leaders just when the counter overtook the caller. */
  lemma LostReleaseBreaksExactly(s: Store, r: Request, e: Env, originalEnd: int)
    requires Inv(s, originalEnd) && LosesRelease(s, r, e)
    ensures var after := PlaceBid(s, r, e).0;
            && Core(after) && after.bids != []
            && after.listing.cachedHighest == Some(Price(s, r)) && Price(s, r) < Last(after.bids).amount
            && after.listing.endTime == Max(s.listing.endTime, r.time + ANTI_SNIPING_EXTENSION_SECS)
            && after.job.Some? && DueAtEnd(after)
            && (EveryBidHasItsTime(after) <==> r.time + ANTI_SNIPING_EXTENSION_SECS < s.listing.endTime)
            && Last(after.bids).time == r.time + 1
            && (OutbidOk(after.outbox, after.bids) <==> CounterRaises(s, r))
            && (HoldsOk(after.hasWallet, after.bids, after.holds) <==> CounterRaises(s, r))
  {
    hide Inv, Core, Current, Admit, Commit, ResolveProxies, PlanCounter, Persisted, JustLed, DrawsCounter, DrawsRefusal,
      CounterRaises, CounterRowFails, Price, InsertFails, OutbidOk, HoldsOk, EveryBidHasItsTime, CounterRows;
    InvIsCore(s, originalEnd);
    PlaceBidKeepsCore(s, r, e);
    AcceptedCallPlans(s, r, e);
    CommitKeepsInv(s, r, e, originalEnd);
    var a := Admit(s, r, e.catalogOk);
    var (s1, result) := Commit(s, r, a.accepted, a.status, e);
    PersistedListing(s, r, result.value, s1);
    PersistedTables(s, r, result.value, s1);
    CurrentReads(s1);
    LedIsDueAtEnd(s, r, a.accepted, a.status, e);
    ResolveRepliesIff(s1, r.time, e);
    CounterRowBreaks(s1, r.time, e, originalEnd);
  }

  lemma CurrentReads(s: Store)
    requires Current(s) && s.bids != []
    ensures s.listing.cachedHighest == Some(Last(s.bids).amount)
  {
  }

  lemma PersistedListing(s: Store, r: Request, row: BidRow, s1: Store)
    requires Persisted(s, r, row, s1)
    ensures s1.bids == s.bids + [row] && Last(s1.bids) == row
    ensures s1.listing.endTime == Max(s.listing.endTime, r.time + ANTI_SNIPING_EXTENSION_SECS)
  {
  }

  // ----- a live hold that the leader does not carry

  /** The hold is live although its row, if it has one, does not lead. */
  predicate Left(s: Store, h: nat) {
    h < |s.holds| && s.holds[h].state == Live && (s.bids != [] ==> Last(s.bids).hold != Some(h))
  }

  lemma SwapLeaves(s: Store, previous: Option<BidRow>, bidder: string, amount: int, e: Env, h: nat)
    requires h < |s.holds| && s.holds[h].state == Live && (previous.Some? ==> previous.value.hold != Some(h))
    ensures var (s1, result) := SwapHolds(s, previous, bidder, amount, e);
            && s1.bids == s.bids && h < |s1.holds| && s1.holds[h] == s.holds[h]
            && (result.Ok? ==> result.value != Some(h))
  {
    hide Release;
  }

  lemma CommitLeaves(s: Store, r: Request, e: Env, h: nat)
    requires Core(s) && Left(s, h) && Admit(s, r, e.catalogOk).Admitted?
    ensures var a := Admit(s, r, e.catalogOk); Left(Commit(s, r, a.accepted, a.status, e).0, h)
  {
    hide Core, Winner, HasId, UpsertMax, SwapHolds, Admit, Release;
    var a := Admit(s, r, e.catalogOk);
    CoreWinner(s);
    SwapLeaves(WithMaximum(s, r), Winner(s.bids), r.bidder, a.accepted.newHighest.amount, e, h);
  }

  lemma ResolveLeaves(s: Store, time: int, e: Env, h: nat)
    requires Current(s) && JustLed(s, time) && Left(s, h)
    ensures Left(ResolveProxies(s, time, e).0, h)
  {
    hide Core, PlanCounter, PlaceCounter, RowRefused, JustLed, Release;
    var p := PlanCounter(s, time);
    if p.Counter? {
      PlannedCounter(s, time);
      NewestRowIsBacked(s);
      JustLedHasRows(s, time);
      PlaceCounterExits(s, p, e);
    }
  }

  lemma CallLeaves(s: Store, r: Request, e: Env, h: nat)
    requires Core(s) && Left(s, h)
    ensures Left(PlaceBid(s, r, e).0, h)
  {
    hide Core, Current, Admit, Commit, ResolveProxies, Left, UpsertMax, Persisted, JustLed;
    var a := Admit(s, r, e.catalogOk);
    if a.MaxRaised? {
      MaximumLeavesHolds(s, r);
      LeftIsAboutHolds(s, WithMaximum(s, r), h);
    }
    if a.Admitted? {
      CommitLeaves(s, r, e, h);
      CommitKeepsCore(s, r, e);
      var (s1, result) := Commit(s, r, a.accepted, a.status, e);
      if result.Ok? {
        PersistedIsJustLed(s, r, result.value, s1);
        ResolveLeaves(s1, r.time, e, h);
        var s2, row := ResolveProxies(s1, r.time, e).0, result.value;
        LeftIsAboutHolds(s2, Emit(s2, BidPlaced(row.id, row.bidder, row.amount, s1.listing.endTime)), h);
      }
    }
  }

  lemma LeftIsAboutHolds(s: Store, s': Store, h: nat)
    requires s.bids == s'.bids && s.holds == s'.holds
    ensures Left(s, h) <==> Left(s', h)
  {
  }

  /** The job's stages follow the listing's, and the settlement of an unsold auction has released every row's hold. */
  predicate Staged(s: Store) {
    && (if Open(s.listing.status) then s.job.Some? ==> s.job.value.status in {Pending, Processing}
        else s.job.Some? && s.job.value.status in {Settling, Done, Processing})
    && (s.hasWallet && s.listing.status == Unsold && s.job.value.status == Done ==>
          forall x <- s.bids :: !IsLive(s.holds, x.hold))
  }

  /** Only the settlement of an unsold auction looks at the holds of rows that do not lead; finished, it has released
      them all. */
  lemma SettlementLeaves(s: Store, now: int, failAt: Option<nat>, h: nat)
    requires Core(s) && s.listing.status in {Won, Unsold} && s.job.Some?
    ensures Staged(AttemptSettlement(s, now, failAt).0)
    ensures Left(s, h) && s.listing.status == Won ==> Left(AttemptSettlement(s, now, failAt).0, h)
  {
    hide Core, Listed, ReleaseAll;
    ListedNewest(s);
    ReleaseAllReleases(s.holds, Listed(s.bids), failAt);
  }

  lemma ClosedListingIsCore(s: Store, job: Option<Job>, now: int)
    requires Core(s) && Open(s.listing.status)
    ensures var closed := CloseListing(s.(job := job), now);
            && Core(closed) && closed.listing.status in {Won, Unsold} && closed.job.Some?
            && closed.bids == s.bids && closed.holds == s.holds
  {
    hide Core, Listed, First;
    ClosingKeepsCore(s, job, now);
  }

  lemma CallKeepsStages(s: Store, r: Request, e: Env)
    requires Core(s) && Staged(s)
    ensures Staged(PlaceBid(s, r, e).0)
  {
    hide Core, Current, Commit, ResolveProxies, AdmitStandard, AdmitProxy, Matching, Persisted, WithMaximum, JustLed;
    if Open(s.listing.status) {
      BiddingDoesNotClose(s, r, e);
      var a := Admit(s, r, e.catalogOk);
      if a.MaxRaised? { MaximumLeavesJob(s, r); }
      if a.Admitted? {
        CommitKeepsCore(s, r, e);
        var (s1, result) := Commit(s, r, a.accepted, a.status, e);
        if result.Ok? {
          PersistedIsJustLed(s, r, result.value, s1);
          LeadStages(s, r, a.accepted, a.status, e);
          CounterKeepsStage(s1, r.time, e);
        }
      }
    } else {
      CoreStatus(s);
      ClosedTakesNoBids(s, r, e);
    }
  }

  /** The job of an open auction has not come to its settlement. */
  predicate Waiting(job: Option<Job>) { job.Some? ==> job.value.status in {Pending, Processing} }

  lemma SwapKeepsJob(s: Store, previous: Option<BidRow>, bidder: string, amount: int, e: Env)
    ensures SwapHolds(s, previous, bidder, amount, e).0.job == s.job
  {
    hide Release, Rupiah;
  }

  lemma LeadStages(s: Store, r: Request, accepted: Accepted, status: Status, e: Env)
    requires Waiting(s.job)
    ensures Waiting(Commit(s, r, accepted, status, e).0.job)
  {
    hide Winner, HasId, UpsertMax, Release, SwapHolds, Tops, InsertFails;
    SwapKeepsJob(WithMaximum(s, r), Winner(s.bids), r.bidder, accepted.newHighest.amount, e);
  }

  lemma CounterKeepsStage(s: Store, time: int, e: Env)
    requires Waiting(s.job)
    ensures Waiting(ResolveProxies(s, time, e).0.job)
  {
    hide PlanCounter, HasId, RaiseRow, Release, Where, Advance, Tops;
  }

  /** Every step keeps the stages, and a live hold that does not lead, short of an unsold closing. */
  lemma StepLeaves(s: Store, a: Action, h: nat)
    requires Core(s) && Staged(s)
    ensures Staged(Step(s, a))
    ensures Left(s, h) && Step(s, a).listing.status != Unsold ==> Left(Step(s, a), h)
  {
    hide Core, PlaceBid, AttemptSettlement, CloseListing, Staged, Left, DeleteFor;
    match a
    case Bidding(r, e) =>
      CallKeepsStages(s, r, e);
      if Left(s, h) { CallLeaves(s, r, e, h); }
    case Withdrawing(bidder) => StagedIgnores(s, DeleteProxy(s, bidder), h);
    case Working(now, tx, failAt) => WorkerLeaves(s, now, tx, failAt, h);
    case Closing(now, tx, failAt) =>
      if Open(s.listing.status) && tx.Commits? && s.listing.endTime <= now {
        assert s.(job := s.job) == s;
        ClosedListingIsCore(s, s.job, now);
        SettlementLeaves(CloseListing(s, now), now, failAt, h);
        LeftIsAboutHolds(s, CloseListing(s, now), h);
        SettlingLeavesBids(CloseListing(s, now), now, failAt);
      } else {
        CoreStatus(s);
      }
  }

  lemma StagedIgnores(s: Store, s': Store, h: nat)
    requires s' == s.(proxies := s'.proxies)
    ensures (Staged(s) ==> Staged(s')) && (Left(s, h) ==> Left(s', h))
  {
  }

  lemma WorkerLeaves(s: Store, now: int, tx: Tx, failAt: Option<nat>, h: nat)
    requires Core(s) && Staged(s)
    ensures var s' := ProcessPending(s, now, tx, failAt).0;
            Staged(s') && (Left(s, h) && s'.listing.status != Unsold ==> Left(s', h))
  {
    hide Core, AttemptSettlement, CloseListing, IsLive;
    CoreStatus(s);
    var s0 := Reconcile(s, now);
    LeftIsAboutHolds(s, s0, h);
    if Claimable(s0.job, now) {
      var claimed := s0.(job := Some(s0.job.value.(status := Processing, lockedUntil := Some(now + CLAIM_SECS))));
      LeftIsAboutHolds(s, claimed, h);
      if !Open(s.listing.status) {
        CoreIgnoresMoney(s, s.holds, claimed.job, s.outbox);
        assert claimed == s.(holds := s.holds, job := claimed.job, outbox := s.outbox);
        SettlementLeaves(claimed, now, failAt, h);
        SettlingLeavesBids(claimed, now, failAt);
      } else {
        assert claimed == s.(job := claimed.job);
        ClosedListingIsCore(s, claimed.job, now);
        SettlementLeaves(CloseListing(claimed, now), now, failAt, h);
        LeftIsAboutHolds(s, CloseListing(claimed, now), h);
        SettlingLeavesBids(CloseListing(claimed, now), now, failAt);
      }
    }
  }

  lemma {:induction false} RunLeaves(s: Store, actions: seq<Action>, h: nat)
    requires Core(s) && Staged(s)
    ensures Staged(Run(s, actions))
    ensures Left(s, h) && Run(s, actions).listing.status != Unsold ==> Left(Run(s, actions), h)
    decreases actions
  {
    hide Core, Staged, Left, Step;
    if actions != [] {
      StepLeaves(s, actions[0], h);
      StepKeepsCore(s, actions[0]);
      RunLeaves(Step(s, actions[0]), actions[1..], h);
      RunOnlyAppends(Step(s, actions[0]), actions[1..]);
    }
  }

  /** The hold a persisted bid is given. */
  lemma CommitHold(s: Store, r: Request, accepted: Accepted, status: Status, e: Env)
    requires s.hasWallet && Commit(s, r, accepted, status, e).1.Ok?
    ensures var (s1, result) := Commit(s, r, accepted, status, e);
            && result.value.hold == Some(|s.holds|) && s1.bids == s.bids + [result.value]
            && |s1.holds| == |s.holds| + 1 && s1.holds[|s.holds|].user == r.bidder
  {
    hide Winner, HasId, UpsertMax;
  }

  lemma RowsBelow(s: Store, originalEnd: int, h: nat)
    requires Inv(s, originalEnd) && s.hasWallet && |s.holds| <= h
    ensures !Carried(s.bids, h)
  {
  }

  /** The hold a lost release leaves behind is the caller's: live, not the leader's, and carried by the caller's row
      just when the counter overtook it. */
  lemma LostReleaseLeavesHold(s: Store, r: Request, e: Env, originalEnd: int)
    requires Inv(s, originalEnd) && LosesRelease(s, r, e)
    ensures var after := PlaceBid(s, r, e).0;
            && Left(after, |s.holds|) && after.holds[|s.holds|].user == r.bidder
            && (Carried(after.bids, |s.holds|) <==> !CounterRaises(s, r))
  {
    hide Inv, Core, Admit, Commit, PlanCounter, Persisted, DrawsCounter, DrawsRefusal,
      CounterRaises, CounterRowFails, Price, InsertFails, PlaceCounter, CounterRow, Carried;
    InvIsCore(s, originalEnd);
    AcceptedCallPlans(s, r, e);
    var a := Admit(s, r, e.catalogOk);
    var (s1, result) := Commit(s, r, a.accepted, a.status, e);
    CommitHold(s, r, a.accepted, a.status, e);
    PersistedTables(s, r, result.value, s1);
    ResolveRepliesIff(s1, r.time, e);
    var p := PlanCounter(s1, r.time);
    PlannedCounter(s1, r.time);
    NewestRowIsBacked(s1);
    PlaceCounterExits(s1, p, e);
    RowsBelow(s, originalEnd, |s.holds|);
    CounterRowHold(s1, p, e);
    var row := CounterRow(s1, p, e);
    CarriedGrows(s.bids, result.value, |s.holds|);
    CarriedGrows(s.bids, row, |s.holds|);
    CarriedGrows(s1.bids, row, |s.holds|);
    assert Raised(s1.bids, row) == s.bids + [row];
  }

  lemma CounterRowHold(s: Store, p: Plan, e: Env)
    requires p.Counter? && s.hasWallet && s.bids != []
    ensures CounterRow(s, p, e).hold == Some(|s.holds|) && CounterHolds(s, p)[..|s.holds|] == s.holds
    ensures Last(CounterRows(s, p, e)) == CounterRow(s, p, e)
  {
    hide Rupiah;
  }

  lemma CreatedIsStaged(c: CreateCommand, now: int, hasWallet: bool)
    requires Create(c, now, hasWallet).Some?
    ensures Staged(Create(c, now, hasWallet).value)
  {
  }

  lemma MetReserveIsNeverUnsold(s: Store, s': Store)
    requires Core(s) && Core(s') && s.bids <= s'.bids && s'.listing.terms == s.listing.terms
    requires s.bids != [] && s.listing.terms.reserve <= Last(s.bids).amount
    ensures s'.listing.status != Unsold
  {
    assert s'.bids[|s.bids| - 1] == Last(s.bids);
  }

  /**
   * From every reachable store: a live hold that does not lead stays live over any run that does not end unsold, which
   * none can once the reserve is met; and if a row carries it, a finished settlement has released it exactly when the
   * auction is unsold.
   */
  lemma DisplacedHoldIsReleasedIff(c: CreateCommand, now: int, hasWallet: bool, actions: seq<Action>, s: Store, h: nat,
                                   more: seq<Action>)
    requires Reachable(c, now, hasWallet, actions, s) && Left(s, h)
    ensures var end := Run(s, more);
            && (end.listing.status != Unsold ==> Left(end, h))
            && (s.bids != [] && c.reserve <= Last(s.bids).amount ==> end.listing.status != Unsold)
            && (hasWallet && Carried(s.bids, h) && end.job.Some? && end.job.value.status == Done ==>
                  (IsLive(end.holds, Some(h)) <==> end.listing.status == Won))
  {
    hide Core, Staged, Left, Run, Create, Carried;
    var created := Create(c, now, hasWallet).value;
    CreatedTerms(c, now, hasWallet);
    ReachableIsCore(c, now, hasWallet, actions, s);
    CreatedIsCore(c, now, hasWallet);
    CreatedIsStaged(c, now, hasWallet);
    RunLeaves(created, actions, h);
    RunLeaves(s, more, h);
    RunKeepsCore(s, more);
    RunKeepsWallet(s, more);
    RunOnlyAppends(s, more);
    var end := Run(s, more);
    if s.bids != [] && c.reserve <= Last(s.bids).amount { MetReserveIsNeverUnsold(s, end); }
    CoreStatus(end);
    if hasWallet && Carried(s.bids, h) { DoneReleases(s, end, h); }
  }

  lemma DoneReleases(s: Store, end: Store, h: nat)
    requires Staged(end) && Carried(s.bids, h) && s.bids <= end.bids && end.hasWallet
    requires end.listing.status in {Draft, Active, Extended, Won, Unsold}
    requires end.listing.status != Unsold ==> Left(end, h)
    ensures end.job.Some? && end.job.value.status == Done ==>
              (IsLive(end.holds, Some(h)) <==> end.listing.status == Won)
  {
    var x :| x in s.bids && x.hold == Some(h);
    assert x in end.bids;
  }
}
