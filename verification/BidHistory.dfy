/** The bid table over runs: it only grows, replays add nothing, and page walks see a snapshot. */
module BidHistory {
  import opened Wrappers
  import opened AuctionSession
  import opened BidTable
  import opened BidPages
  import opened BidValidation
  import opened AuctionStore
  import opened StoreInvariant
  import opened CounterPlan
  import opened CallGuards
  import opened CounterInvariant
  import opened AuctionClosure
  import opened AuctionRuns

  /** The row of an accepted call, unless the counter raised it within the same call. */
  predicate RowOf(row: BidRow, bidder: string, amount: int, time: int) {
    row.bidder == bidder && ((row.amount == amount && row.time == time) || amount < row.amount)
  }

  lemma CounterTouchesNewestOnly(s: Store, time: int, e: Env)
    requires Current(s) && JustLed(s, time)
    ensures var after := ResolveProxies(s, time, e).0.bids;
            && s.bids[..|s.bids| - 1] <= after && |s.bids| <= |after| && after[|s.bids| - 1].id == Last(s.bids).id
            && (after[|s.bids| - 1] == Last(s.bids)
                || (after[|s.bids| - 1].bidder == Last(s.bids).bidder
                    && Last(s.bids).amount < after[|s.bids| - 1].amount))
    ensures ResolveProxies(s, time, e).0.listing.terms == s.listing.terms
  {
    hide PlanCounter, PlaceCounter, Core, RowRefused;
    var p := PlanCounter(s, time);
    if p.Counter? {
      PlannedCounter(s, time);
      NewestRowIsBacked(s);
      PlaceCounterExits(s, p, e);
    }
  }

  /** A call appends at most its own row and a counter's; no row from before the call ever changes. */
  lemma CallOnlyAppends(s: Store, r: Request, e: Env)
    requires Core(s)
    ensures s.bids <= PlaceBid(s, r, e).0.bids
    ensures if Accepts(s, r, e) then
              && |s.bids| < |PlaceBid(s, r, e).0.bids|
              && (r.Standard? ==> RowOf(PlaceBid(s, r, e).0.bids[|s.bids|], r.bidder, r.amount, r.time))
            else PlaceBid(s, r, e).0.bids == s.bids && PlaceBid(s, r, e).0.listing == s.listing
    ensures PlaceBid(s, r, e).0.listing.terms == s.listing.terms
  {
    hide Core, Commit, ResolveProxies, AdmitStandard, AdmitProxy, Matching, WithMaximum, RowOf, InsertFails,
      HoldGranted;
    var a := Admit(s, r, e.catalogOk);
    if a.MaxRaised? { MaximumLeavesBids(s, r); }
    if a.Admitted? {
      CommitKeepsCore(s, r, e);
      CommitsIff(s, r, e);
      if Accepts(s, r, e) { AcceptedCallOnlyAppends(s, r, e); }
    }
  }

  lemma AcceptedCallOnlyAppends(s: Store, r: Request, e: Env)
    requires Core(s) && Accepts(s, r, e)
    ensures var a := Admit(s, r, e.catalogOk);
            var s1 := Commit(s, r, a.accepted, a.status, e).0;
            var s2 := ResolveProxies(s1, r.time, e).0;
            && s.bids <= s2.bids && |s.bids| < |s2.bids| && s2.listing.terms == s.listing.terms
            && (r.Standard? ==> RowOf(s2.bids[|s.bids|], r.bidder, r.amount, r.time))
  {
    hide Core, Commit, ResolveProxies, Admit, WithMaximum, JustLed, Persisted, Accepts, DrawsCounter, DrawsRefusal;
    var a := Admit(s, r, e.catalogOk);
    AcceptedCallPlans(s, r, e);
    var (s1, result) := Commit(s, r, a.accepted, a.status, e);
    PersistedTables(s, r, result.value, s1);
    CounterTouchesNewestOnly(s1, r.time, e);
    assert s1.bids[..|s1.bids| - 1] == s.bids;
  }

  lemma MaximumLeavesBids(s: Store, r: Request)
    ensures WithMaximum(s, r).bids == s.bids && WithMaximum(s, r).listing == s.listing
  {
  }

  /** Same rows, same terms, same maxima; and the same listing if it was closed before. */
  predicate KeepsBids(s: Store, s': Store) {
    && s'.bids == s.bids && s'.proxies == s.proxies && s'.listing.terms == s.listing.terms
    && (s.listing.status in {Won, Unsold} ==> s'.listing == s.listing)
  }

  lemma SettlingLeavesBids(s: Store, now: int, failAt: Option<nat>)
    ensures var s' := AttemptSettlement(s, now, failAt).0;
            s'.bids == s.bids && s'.proxies == s.proxies && s'.listing == s.listing
  {
    hide Settle;
  }

  lemma ClosingLeavesBids(s: Store, now: int, tx: Tx, failAt: Option<nat>)
    ensures KeepsBids(s, ProcessPending(s, now, tx, failAt).0)
    ensures KeepsBids(s, CloseNow(s, now, tx, failAt).0)
  {
    hide AttemptSettlement, Decide, Listed;
    var s0 := Reconcile(s, now);
    if Claimable(s0.job, now) {
      var claimed := s0.(job := Some(s0.job.value.(status := Processing, lockedUntil := Some(now + CLAIM_SECS))));
      SettlingLeavesBids(claimed, now, failAt);
      SettlingLeavesBids(CloseListing(claimed, now), now, failAt);
    }
    SettlingLeavesBids(CloseListing(s, now), now, failAt);
  }

  lemma ClosedTakesNoBids(s: Store, r: Request, e: Env)
    requires s.listing.status in {Won, Unsold}
    ensures PlaceBid(s, r, e).0 == s
  {
    if r.Standard? { StandardChainUnfolds(Context(s.listing, r.bidder, r.time, r.amount, Winner(s.bids))); }
  }

  /** Every step of the service only appends to the bid table, and after closing nothing changes bids or listing. */
  lemma StepOnlyAppends(s: Store, a: Action)
    requires Core(s)
    ensures s.bids <= Step(s, a).bids
    ensures Step(s, a).listing.terms == s.listing.terms
    ensures s.listing.status in {Won, Unsold} ==> Step(s, a).bids == s.bids && Step(s, a).listing == s.listing
  {
    hide Core, PlaceBid, ProcessPending, CloseNow;
    match a
    case Bidding(r, e) =>
      CallOnlyAppends(s, r, e);
      if s.listing.status in {Won, Unsold} { ClosedTakesNoBids(s, r, e); }
    case Withdrawing(_) =>
    case Working(now, tx, failAt) => ClosingLeavesBids(s, now, tx, failAt);
    case Closing(now, tx, failAt) => ClosingLeavesBids(s, now, tx, failAt);
  }

  /** Over any run the bid table only grows, and a closed auction's bids and listing are final. */
  lemma {:induction false} RunOnlyAppends(s: Store, actions: seq<Action>)
    requires Core(s)
    ensures s.bids <= Run(s, actions).bids
    ensures Run(s, actions).listing.terms == s.listing.terms
    ensures s.listing.status in {Won, Unsold} ==> Run(s, actions).bids == s.bids && Run(s, actions).listing == s.listing
    decreases actions
  {
    hide Core, Step;
    if actions != [] {
      StepKeepsCore(s, actions[0]);
      StepOnlyAppends(s, actions[0]);
      RunOnlyAppends(Step(s, actions[0]), actions[1..]);
    }
  }

  // ----- replay

  lemma OldAmountIsTooLow(s: Store, bidder: string, amount: int, time: int, row: BidRow)
    requires Core(s) && row in s.bids && amount < row.amount
    ensures AdmitStandard(s, bidder, amount, time).Refused? && AdmitStandard(s, bidder, amount, time).reply.Rejected?
  {
    hide HoldsOk, OutbidOk, LatestEnd, ProxiesOk, JobOk, Validate, Winner;
    WinnerIsNewest(s.listing.terms, s.bids);
    StandardChainUnfolds(Context(s.listing, bidder, time, amount, Winner(s.bids)));
  }

  /** Resubmitting an accepted standard bid is a no-op whenever its row, or the raise of its row, is in the table. */
  lemma ReplayIsNoOp(s: Store, r: Request, e: Env, row: BidRow)
    requires Core(s) && r.Standard? && row in s.bids && RowOf(row, r.bidder, r.amount, r.time)
    ensures PlaceBid(s, r, e).0 == s
    ensures row.amount == r.amount && row.time == r.time ==>
              PlaceBid(s, r, e).1.Placed? && PlaceBid(s, r, e).1.row in s.bids
    ensures PlaceBid(s, r, e).1.Placed? ==>
              var found := PlaceBid(s, r, e).1.row;
              found.bidder == r.bidder && found.amount == r.amount && found.time == r.time
  {
    hide Core, AdmitStandard, AdmitProxy, Commit, ResolveProxies;
    if row.amount != r.amount || row.time != r.time {
      OldAmountIsTooLow(s, r.bidder, r.amount, r.time, row);
    }
  }

  /** At any later point of any run, resubmitting an accepted standard bid adds no row, hold or event. */
  lemma ReplayIsSafe(s: Store, r: Request, e: Env, later: seq<Action>, again: Env)
    requires Core(s) && r.Standard? && Accepts(s, r, e)
    ensures var reached := Run(PlaceBid(s, r, e).0, later); PlaceBid(reached, r, again).0 == reached
  {
    hide Core, PlaceBid, Accepts, RowOf;
    var s1 := PlaceBid(s, r, e).0;
    PlaceBidKeepsCore(s, r, e);
    CallOnlyAppends(s, r, e);
    RunKeepsCore(s1, later);
    RunOnlyAppends(s1, later);
    var reached := Run(s1, later);
    assert reached.bids[|s.bids|] == s1.bids[|s.bids|] && reached.bids[|s.bids|] in reached.bids;
    ReplayIsNoOp(reached, r, again, reached.bids[|s.bids|]);
  }

  // ----- page walks while the auction runs

  /** The tables a walk sees when `gaps[i]` is what happens before its i-th fetch. */
  function FetchesDuring(s: Store, gaps: seq<seq<Action>>, limits: seq<Option<int>>): seq<Fetch>
    requires |gaps| == |limits|
    decreases gaps
  {
    if gaps == [] then []
    else
      var reached := Run(s, gaps[0]);
      [Fetch(reached.bids, limits[0])] + FetchesDuring(reached, gaps[1..], limits[1..])
  }

  lemma {:induction false} FetchedTablesGrow(s: Store, gaps: seq<seq<Action>>, limits: seq<Option<int>>,
                                             base: seq<BidRow>)
    requires Core(s) && |gaps| == |limits| && base <= s.bids
    ensures forall f <- FetchesDuring(s, gaps, limits) :: base <= f.table && Rising(f.table) && DistinctIds(f.table)
    decreases gaps
  {
    hide Core, Run, Rising, DistinctIds;
    if gaps != [] {
      RunKeepsCore(s, gaps[0]);
      RunOnlyAppends(s, gaps[0]);
      CoreRows(Run(s, gaps[0]));
      FetchedTablesGrow(Run(s, gaps[0]), gaps[1..], limits[1..], base);
    }
  }

  lemma CoreRows(s: Store)
    requires Core(s)
    ensures Rising(s.bids) && DistinctIds(s.bids)
  {
  }

  /** Walking the pages while bids, counters and closings go on returns exactly the listing of the first table seen. */
  lemma WalkDuringRunReturnsSnapshot(s: Store, gaps: seq<seq<Action>>, limits: seq<Option<int>>)
    requires Core(s) && |gaps| == |limits| && gaps != []
    requires Printable(Run(s, gaps[0]).bids)
    ensures Covers(Walk(FetchesDuring(s, gaps, limits), None), Listed(Run(s, gaps[0]).bids), |gaps|)
  {
    hide Core, Run, Rising, DistinctIds, Walk, Covers, Printable, Listed;
    var first := Run(s, gaps[0]);
    var fetches := FetchesDuring(s, gaps, limits);
    RunKeepsCore(s, gaps[0]);
    CoreRows(first);
    FetchedTablesGrow(first, gaps[1..], limits[1..], first.bids);
    FetchCount(s, gaps, limits);
    assert fetches[0].table == first.bids;
    forall f <- fetches ensures first.bids <= f.table && Rising(f.table) && DistinctIds(f.table) {
      assert f == fetches[0] || f in fetches[1..];
    }
    WalkReturnsSnapshot(fetches);
  }

  lemma {:induction false} FetchCount(s: Store, gaps: seq<seq<Action>>, limits: seq<Option<int>>)
    requires |gaps| == |limits|
    ensures |FetchesDuring(s, gaps, limits)| == |gaps|
    decreases gaps
  {
    if gaps != [] { FetchCount(Run(s, gaps[0]), gaps[1..], limits[1..]); }
  }
}
