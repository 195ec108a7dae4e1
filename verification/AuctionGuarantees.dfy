/** What every reachable auction promises its bidders, its seller and the wallet. */
module AuctionGuarantees {
  import opened Wrappers
  import opened AuctionSession
  import opened BidTable
  import opened ProxyTable
  import opened HoldLedger
  import opened BidValidation
  import opened AuctionStore
  import opened StoreInvariant
  import opened CounterPlan
  import opened CallGuards
  import opened CounterInvariant
  import opened AuctionClosure
  import opened AuctionRuns
  import opened BidHistory
  import opened StrayHolds

  /** `s` is what a created auction becomes over a run, whatever its calls meet. */
  predicate Reachable(c: CreateCommand, now: int, hasWallet: bool, actions: seq<Action>, s: Store) {
    && START_TIME_CLOCK_SKEW_SECS <= now
    && Create(c, now, hasWallet).Some?
    && s == Run(Create(c, now, hasWallet).value, actions)
  }

  /** Over a run that loses no release. */
  predicate Reached(c: CreateCommand, now: int, hasWallet: bool, actions: seq<Action>, s: Store) {
    Reachable(c, now, hasWallet, actions, s) && Sound(Create(c, now, hasWallet).value, actions)
  }

  lemma ReachableIsCore(c: CreateCommand, now: int, hasWallet: bool, actions: seq<Action>, s: Store)
    requires Reachable(c, now, hasWallet, actions, s)
    ensures Core(s)
    ensures s.listing.terms == Create(c, now, hasWallet).value.listing.terms && s.hasWallet == hasWallet
  {
    hide Core, Run, Create;
    CreatedTerms(c, now, hasWallet);
    RunKeepsWallet(Create(c, now, hasWallet).value, actions);
    CreatedIsCore(c, now, hasWallet);
    RunKeepsCore(Create(c, now, hasWallet).value, actions);
    RunOnlyAppends(Create(c, now, hasWallet).value, actions);
  }

  lemma ReachedInOrder(c: CreateCommand, now: int, hasWallet: bool, actions: seq<Action>, s: Store)
    requires Reached(c, now, hasWallet, actions, s)
    ensures Inv(s, c.endTime)
    ensures s.listing.terms == Create(c, now, hasWallet).value.listing.terms && s.hasWallet == hasWallet
  {
    hide Inv, Core, Run, Sound, Create;
    CreatedIsInOrder(c, now, hasWallet);
    RunKeepsInv(Create(c, now, hasWallet).value, actions, c.endTime);
    ReachableIsCore(c, now, hasWallet, actions, s);
  }

  /** Over every run: a winner whenever there are rows, distinct amounts, no seller bids, and a cached highest never
      above the winner's amount; while no release is lost, exactly that amount, and the closure due at the end. */
  lemma StoreIsConsistent(c: CreateCommand, now: int, hasWallet: bool, actions: seq<Action>, s: Store)
    requires Reachable(c, now, hasWallet, actions, s)
    ensures Winner(s.bids).None? <==> s.bids == []
    ensures forall i, j | 0 <= i < j < |s.bids| :: s.bids[i].amount != s.bids[j].amount
    ensures forall x <- s.bids :: x.bidder != c.seller && c.startingPrice <= x.amount
    ensures match Winner(s.bids)
            case None => s.listing.cachedHighest.None?
            case Some(w) => s.listing.cachedHighest.Some? && s.listing.cachedHighest.value <= w.amount
    ensures Sound(Create(c, now, hasWallet).value, actions) ==>
              && s.listing.cachedHighest == (if Winner(s.bids).Some? then Some(Winner(s.bids).value.amount) else None)
              && (Open(s.listing.status) && s.job.Some? && s.job.value.attempts == 0 ==>
                    s.job.value.dueAt == s.listing.endTime)
  {
    hide Run, Sound, HoldsOk, OutbidOk, LatestEnd, ProxiesOk;
    ReachableIsCore(c, now, hasWallet, actions, s);
    WinnerIsNewest(s.listing.terms, s.bids);
    if Sound(Create(c, now, hasWallet).value, actions) { ReachedInOrder(c, now, hasWallet, actions, s); }
  }

  /** Of the holds that rows carry at most one is live: the winning row's, of its bidder, covering its amount to the
      rupiah. No other hold is live exactly when no call of the run stranded one. */
  lemma OneLiveHold(c: CreateCommand, now: int, hasWallet: bool, actions: seq<Action>, s: Store)
    requires Reached(c, now, hasWallet, actions, s)
    ensures forall x <- s.bids :: IsLive(s.holds, x.hold) ==>
              && Winner(s.bids) == Some(x) && s.holds[x.hold.value].user == x.bidder
              && x.amount <= 100 * s.holds[x.hold.value].amount < x.amount + 100
    ensures NoneStranded(Create(c, now, hasWallet).value, actions) <==>
              forall h | 0 <= h < |s.holds| && s.holds[h].state == Live ::
                Winner(s.bids).Some? && Winner(s.bids).value.hold == Some(h)
  {
    hide Run, Sound, Inv, Winner, Carried, NoneStranded, Create;
    ReachedInOrder(c, now, hasWallet, actions, s);
    CreatedIsInOrder(c, now, hasWallet);
    RunTidyIff(Create(c, now, hasWallet).value, actions, c.endTime);
    FreshIsTidy(c, now, hasWallet);
    LiveHoldIsWinners(s, c.endTime);
    TidyMeansWinners(s, c.endTime);
  }

  lemma FreshIsTidy(c: CreateCommand, now: int, hasWallet: bool)
    requires Create(c, now, hasWallet).Some?
    ensures Tidy(Create(c, now, hasWallet).value)
  {
  }

  lemma LiveHoldIsWinners(s: Store, originalEnd: int)
    requires Inv(s, originalEnd)
    ensures forall x <- s.bids :: IsLive(s.holds, x.hold) ==>
              && Winner(s.bids) == Some(x) && s.holds[x.hold.value].user == x.bidder
              && x.amount <= 100 * s.holds[x.hold.value].amount < x.amount + 100
  {
    hide OutbidOk, LatestEnd, ProxiesOk, Winner, JobOk, Rising;
    CoreWinner(s);
    forall x <- s.bids | IsLive(s.holds, x.hold) ensures x == Last(s.bids) {
      var i :| 0 <= i < |s.bids| && s.bids[i] == x;
    }
  }

  lemma TidyMeansWinners(s: Store, originalEnd: int)
    requires Inv(s, originalEnd)
    ensures Tidy(s) <==> forall h | 0 <= h < |s.holds| && s.holds[h].state == Live ::
              Winner(s.bids).Some? && Winner(s.bids).value.hold == Some(h)
  {
    hide Inv, Winner;
    LiveHoldIsWinners(s, originalEnd);
    WinnerIsARow(s.bids);
  }

  /** A finished settlement has left no row's hold live and has paid out the winner's hold alone, if there is a
      winner: with a wallet that hold exists, is the winning bidder's, and covers the winning amount. Before that
      nothing is paid out. Nothing at all is left live exactly when no call of the run stranded a hold. */
  lemma SettlementConservesFunds(c: CreateCommand, now: int, hasWallet: bool, actions: seq<Action>, s: Store)
    requires Reached(c, now, hasWallet, actions, s)
    ensures s.job.Some? && s.job.value.status == Done ==>
              && s.listing.status in {Won, Unsold}
              && (forall x <- s.bids :: !IsLive(s.holds, x.hold))
              && (forall h | 0 <= h < |s.holds| ::
                    s.holds[h].state == Converted <==>
                      s.listing.status == Won && Winner(s.bids).Some? && Winner(s.bids).value.hold == Some(h))
              && (NoneStranded(Create(c, now, hasWallet).value, actions) <==>
                    forall h | 0 <= h < |s.holds| :: s.holds[h].state != Live)
    ensures hasWallet && s.job.Some? && s.job.value.status == Done && s.listing.status == Won ==>
              && Winner(s.bids).Some?
              && var winner := Winner(s.bids).value;
                 && winner.hold.Some? && winner.hold.value < |s.holds|
                 && s.holds[winner.hold.value] == Hold(winner.bidder, Rupiah(winner.amount), Converted)
                 && c.reserve <= winner.amount
    ensures !(s.job.Some? && s.job.value.status == Done) ==>
              forall h | 0 <= h < |s.holds| :: s.holds[h].state != Converted
    ensures s.listing.status in {Won, Unsold} ==> s.job.Some? && s.job.value.status in {Settling, Done, Processing}
  {
    hide Run, Sound, Inv, Winner, NoneStranded, Create, Carried;
    ReachedInOrder(c, now, hasWallet, actions, s);
    SettledBooks(s, c.endTime);
    InvIsCore(s, c.endTime);
    CoreWinner(s);
    CreatedTerms(c, now, hasWallet);
    CreatedIsInOrder(c, now, hasWallet);
    RunTidyIff(Create(c, now, hasWallet).value, actions, c.endTime);
    FreshIsTidy(c, now, hasWallet);
  }

  lemma CreatedTerms(c: CreateCommand, now: int, hasWallet: bool)
    requires Create(c, now, hasWallet).Some?
    ensures Create(c, now, hasWallet).value.listing.terms.reserve == c.reserve
    ensures Create(c, now, hasWallet).value.hasWallet == hasWallet
  {
  }

  lemma SettledBooks(s: Store, originalEnd: int)
    requires Inv(s, originalEnd)
    ensures s.job.Some? && s.job.value.status == Done ==>
              && s.listing.status in {Won, Unsold}
              && (forall x <- s.bids :: !IsLive(s.holds, x.hold))
              && (forall h | 0 <= h < |s.holds| ::
                    s.holds[h].state == Converted <==>
                      s.listing.status == Won && s.bids != [] && Last(s.bids).hold == Some(h))
              && (Tidy(s) <==> forall h | 0 <= h < |s.holds| :: s.holds[h].state != Live)
    ensures s.hasWallet && s.listing.status == Won ==>
              && s.bids != [] && Last(s.bids).hold.Some? && Last(s.bids).hold.value < |s.holds|
              && s.holds[Last(s.bids).hold.value].user == Last(s.bids).bidder
              && s.holds[Last(s.bids).hold.value].amount == Rupiah(Last(s.bids).amount)
              && s.listing.terms.reserve <= Last(s.bids).amount
    ensures !(s.job.Some? && s.job.value.status == Done) ==> NoneConverted(s.holds)
    ensures s.listing.status in {Won, Unsold} ==> s.job.Some? && s.job.value.status in {Settling, Done, Processing}
  {
    hide RowsOk, OutbidOk, LatestEnd, ProxiesOk, CacheOk, TermsOk;
    if s.bids != [] { assert Last(s.bids) in s.bids; }
  }

  /** The outbid events' names, followed by the present leader, are the leaders in the order they led. */
  lemma OutbidEventsNameEveryLeader(c: CreateCommand, now: int, hasWallet: bool, actions: seq<Action>, s: Store)
    requires Reached(c, now, hasWallet, actions, s)
    ensures OutbidNames(s.outbox) + (if Winner(s.bids).Some? then [Winner(s.bids).value.bidder] else [])
            == BiddersOf(s.bids)
    ensures forall i | 0 < i < |s.bids| ::
              s.bids[i - 1].bidder != s.bids[i].bidder && s.bids[i - 1].amount < s.bids[i].amount
  {
    hide Inv, Run, Sound, Winner, OutbidNames, BiddersOf;
    ReachedInOrder(c, now, hasWallet, actions, s);
    LeadersAreNamed(s, c.endTime);
  }

  lemma LeadersAreNamed(s: Store, originalEnd: int)
    requires Inv(s, originalEnd)
    ensures OutbidNames(s.outbox) + (if Winner(s.bids).Some? then [Winner(s.bids).value.bidder] else [])
            == BiddersOf(s.bids)
    ensures forall i | 0 < i < |s.bids| ::
              s.bids[i - 1].bidder != s.bids[i].bidder && s.bids[i - 1].amount < s.bids[i].amount
  {
    hide TermsOk, HoldsOk, LatestEnd, ProxiesOk, JobOk, Winner, OutbidNames;
    WinnerIsNewest(s.listing.terms, s.bids);
    if s.bids != [] {
      assert BiddersOf(s.bids) == BiddersOf(s.bids)[..|s.bids| - 1] + [Last(s.bids).bidder];
    }
  }

  /** The end time is the original end, or 120 seconds after the bid that pushes it furthest; no bid has less. */
  lemma EndFollowsEveryBid(c: CreateCommand, now: int, hasWallet: bool, actions: seq<Action>, s: Store)
    requires Reached(c, now, hasWallet, actions, s)
    ensures c.endTime <= s.listing.endTime
    ensures forall x <- s.bids :: x.time + ANTI_SNIPING_EXTENSION_SECS <= s.listing.endTime
    ensures s.listing.endTime == c.endTime
            || exists x <- s.bids :: s.listing.endTime == x.time + ANTI_SNIPING_EXTENSION_SECS
  {
    hide Run, Sound, HoldsOk, OutbidOk, ProxiesOk, JobOk;
    ReachedInOrder(c, now, hasWallet, actions, s);
  }

  /** Whatever closes an auction does so at least 120 seconds after every bid, and by the stored decision. */
  lemma ClosesLateEnough(c: CreateCommand, now: int, hasWallet: bool, actions: seq<Action>, s: Store, a: Action)
    requires Reached(c, now, hasWallet, actions, s)
    requires Open(s.listing.status) && !Open(Step(s, a).listing.status)
    ensures a.Working? || a.Closing?
    ensures forall x <- s.bids :: x.time + ANTI_SNIPING_EXTENSION_SECS <= a.now
    ensures Step(s, a).bids == s.bids
  {
    hide Run, Sound, Inv, Core, Settle, Decide, Listed, Winner, CloseListing, PlaceBid, LosesRelease;
    ReachableIsCore(c, now, hasWallet, actions, s);
    CoreStatus(s);
    EndFollowsEveryBid(c, now, hasWallet, actions, s);
    if a.Bidding? { BiddingDoesNotClose(s, a.request, a.env); }
    if a.Working? { ClosingLeavesBids(s, a.now, a.tx, a.failAt); }
    if a.Closing? { ClosingLeavesBids(s, a.now, a.tx, a.failAt); }
  }

  lemma BiddingDoesNotClose(s: Store, r: Request, e: Env)
    requires Core(s) && Open(s.listing.status)
    ensures Open(PlaceBid(s, r, e).0.listing.status)
  {
    hide Core, Commit, PlanCounter, AdmitStandard, AdmitProxy, Matching, ReleaseLost, RowRefused, PlaceCounter;
    var a := Admit(s, r, e.catalogOk);
    if a.MaxRaised? { MaximumLeavesBids(s, r); }
    if a.Admitted? {
      CommitKeepsCore(s, r, e);
      var (s1, result) := Commit(s, r, a.accepted, a.status, e);
      if result.Ok? { CounterDoesNotClose(s1, r.time, e); }
    }
  }

  lemma CounterDoesNotClose(s: Store, time: int, e: Env)
    requires Current(s) && JustLed(s, time)
    ensures ResolveProxies(s, time, e).0.listing.status in {Active, Extended}
  {
    hide Core, PlanCounter, PlaceCounter, RowRefused;
    var p := PlanCounter(s, time);
    if p.Counter? {
      PlannedCounter(s, time);
      NewestRowIsBacked(s);
      PlaceCounterExits(s, p, e);
    }
  }

  /** After closing, no run changes the bids or the listing, whatever went before and whatever its calls meet. */
  lemma NothingIsAcceptedAfterClosing(c: CreateCommand, now: int, hasWallet: bool, actions: seq<Action>, s: Store,
                                      more: seq<Action>)
    requires Reachable(c, now, hasWallet, actions, s) && !Open(s.listing.status)
    ensures Run(s, more).bids == s.bids && Run(s, more).listing == s.listing
  {
    hide Core, Run, Create;
    ReachableIsCore(c, now, hasWallet, actions, s);
    CoreStatus(s);
    RunOnlyAppends(s, more);
  }

  /** On every reachable auction the stored decision is the domain's, and a win always has a winning row. */
  lemma OutcomesAgree(c: CreateCommand, now: int, hasWallet: bool, actions: seq<Action>, s: Store)
    requires Reachable(c, now, hasWallet, actions, s)
    ensures var decision := Decide(s.listing, Listed(s.bids));
            && (decision.status == Won <==> ToSession(s.listing, Winner(s.bids)).Outcome().WonOutcome?)
            && (decision.status == Won ==> Winner(s.bids).Some?)
            && (Open(s.listing.status) || decision.status == s.listing.status)
  {
    hide Run, ProxiesOk, Listed, Create;
    ReachableIsCore(c, now, hasWallet, actions, s);
    WinnerIsNewest(s.listing.terms, s.bids);
    if s.bids != [] { assert Last(s.bids) in s.bids; }
    DecisionAgreesWithSessionIff(s.listing, s.bids);
    ListedNewest(s);
  }

  // ----- auctions created before their start

  /** A created auction takes a sufficient bid at its creation clock just when its start has come. */
  lemma CreatedTakesBidsIff(c: CreateCommand, now: int, hasWallet: bool, bidder: string, amount: int)
    requires 0 <= now && 0 <= c.startTime && Create(c, now, hasWallet).Some? && bidder != c.seller
             && c.startingPrice <= amount
    ensures var s := Create(c, now, hasWallet).value;
            ToSession(s.listing, Winner(s.bids)).Takes(bidder, amount, now) <==> c.startTime <= now
  {
    assert Listed(Create(c, now, hasWallet).value.bids) == [];
  }

  /** No call activates a draft, so it takes no bid until it is closed unsold. */
  predicate Dormant(s: Store) { s.bids == [] && s.listing.status in {Draft, Unsold} }

  lemma DormantStepStays(s: Store, a: Action)
    requires Core(s) && Dormant(s)
    ensures Dormant(Step(s, a))
  {
    hide Core, PlaceBid, Admit, Commit, PlanCounter, ReleaseLost, ProcessPending, CloseNow;
    match a
    case Bidding(r, e) =>
      DraftAdmitsNothing(s, r, e);
      CallOnlyAppends(s, r, e);
    case Withdrawing(_) =>
    case Working(now, tx, failAt) => DormantClosing(s, now, tx, failAt);
    case Closing(now, tx, failAt) => DormantClosing(s, now, tx, failAt);
  }

  lemma DormantClosing(s: Store, now: int, tx: Tx, failAt: Option<nat>)
    requires Core(s) && Dormant(s)
    ensures Dormant(ProcessPending(s, now, tx, failAt).0) && Dormant(CloseNow(s, now, tx, failAt).0)
  {
    hide Core, Settle;
    ClosingLeavesBids(s, now, tx, failAt);
    DormantCache(s);
    assert Listed(s.bids) == [];
  }

  lemma DormantCache(s: Store)
    requires Core(s) && Dormant(s)
    ensures s.listing.cachedHighest.None?
  {
  }

  lemma DraftAdmitsNothing(s: Store, r: Request, e: Env)
    requires Core(s) && Dormant(s)
    ensures !Admit(s, r, e.catalogOk).Admitted?
  {
    hide Core, Admit;
    if Admit(s, r, e.catalogOk).Admitted? { AdmittedBidCanLead(s, r, e.catalogOk); }
  }

  lemma {:induction false} DormantRunStays(s: Store, actions: seq<Action>)
    requires Core(s) && Dormant(s)
    ensures Dormant(Run(s, actions))
    decreases actions
  {
    hide Core, Dormant, Step;
    if actions != [] {
      DormantStepStays(s, actions[0]);
      StepKeepsCore(s, actions[0]);
      DormantRunStays(Step(s, actions[0]), actions[1..]);
    }
  }

  /** An auction created ahead of its start never takes a bid in any run, and can only end unsold. */
  lemma EarlyAuctionNeverSells(c: CreateCommand, now: int, hasWallet: bool, actions: seq<Action>)
    requires START_TIME_CLOCK_SKEW_SECS <= now < c.startTime && Create(c, now, hasWallet).Some?
    ensures Dormant(Run(Create(c, now, hasWallet).value, actions))
  {
    hide Core, Run;
    CreatedIsCore(c, now, hasWallet);
    DormantRunStays(Create(c, now, hasWallet).value, actions);
  }

  // ----- when the winner is paid for

  /** The leader, if any, is backed by a live hold. */
  predicate Funded(s: Store) { s.bids != [] ==> IsLive(s.holds, Last(s.bids).hold) }

  /** The call releases the leader's hold and then gets no hold or no row for a new leader. */
  predicate StrandsLeader(s: Store, r: Request, e: Env) {
    && Admit(s, r, e.catalogOk).Admitted? && s.bids != []
    && e.releaseOk && (!e.holdOk || InsertFails(s, e.bidId, e.insertOk))
  }

  /** With a wallet, a call leaves the leader funded exactly when it accepts a bid or found the leader funded and
      does not strand it. */
  lemma CallFundsLeaderIff(s: Store, r: Request, e: Env, originalEnd: int)
    requires Inv(s, originalEnd) && s.hasWallet
    ensures Funded(PlaceBid(s, r, e).0) <==> Accepts(s, r, e) || (Funded(s) && !StrandsLeader(s, r, e))
  {
    hide Inv, Core, Commit, ResolveProxies, AdmitStandard, AdmitProxy, Matching, PlanCounter, Release, UpsertMax,
      InsertFails;
    InvIsCore(s, originalEnd);
    var a := Admit(s, r, e.catalogOk);
    if a.Admitted? {
      CommitKeepsInv(s, r, e, originalEnd);
      CommitsIff(s, r, e);
      var (s1, result) := Commit(s, r, a.accepted, a.status, e);
      if result.Ok? {
        PersistedIsJustLed(s, r, result.value, s1);
        CounterKeepsFunded(s1, r.time, e, originalEnd);
      } else {
        FailedCommitFunds(s, r, e, originalEnd);
      }
    }
  }

  lemma CounterKeepsFunded(s: Store, time: int, e: Env, originalEnd: int)
    requires Inv(s, originalEnd) && JustLed(s, time) && s.hasWallet
    ensures Funded(ResolveProxies(s, time, e).0)
  {
    hide Inv, PlanCounter, PlaceCounter, RowRefused;
    var p := PlanCounter(s, time);
    if p.Counter? {
      InvIsCore(s, originalEnd);
      PlannedCounter(s, time);
      NewestRowIsBacked(s);
      PlaceCounterExits(s, p, e);
      HoldIndexInRange(s, originalEnd);
    }
  }

  lemma HoldIndexInRange(s: Store, originalEnd: int)
    requires Inv(s, originalEnd) && s.hasWallet && s.bids != []
    ensures Last(s.bids).hold.Some? && Last(s.bids).hold.value < |s.holds|
  {
    assert Last(s.bids) in s.bids;
  }

  lemma FailedCommitFunds(s: Store, r: Request, e: Env, originalEnd: int)
    requires Inv(s, originalEnd) && s.hasWallet
    requires var a := Admit(s, r, e.catalogOk); a.Admitted? && Commit(s, r, a.accepted, a.status, e).1.Err?
    ensures var a := Admit(s, r, e.catalogOk);
            var s1 := Commit(s, r, a.accepted, a.status, e).0;
            && s1.bids == s.bids
            && (s.bids != [] ==>
                  (IsLive(s1.holds, Last(s.bids).hold) <==> IsLive(s.holds, Last(s.bids).hold) && !e.releaseOk))
  {
    hide Inv, Core, UpsertMax, Winner, Lead, Admit;
    InvIsCore(s, originalEnd);
    AdmittedBidCanLead(s, r, e.catalogOk);
    CoreWinner(s);
    if s.bids != [] { HoldIndexInRange(s, originalEnd); }
  }

  /** A willing wallet finishes the settlement of a closed auction just when there is no winner to charge or its hold
      is live. */
  lemma SettlementFinishesIff(s: Store, now: int, originalEnd: int)
    requires Inv(s, originalEnd) && s.listing.status in {Won, Unsold} && s.job.value.status == Settling
    ensures AttemptSettlement(s, now, None).1.Finished? <==> !s.hasWallet || s.listing.status == Unsold || Funded(s)
  {
    hide RowsOk, ProxiesOk, OutbidOk, LatestEnd, Listed, ReleaseAll;
    ListedNewest(s);
    ReleaseAllSucceeds(s.holds, Listed(s.bids));
  }

  /** A won auction, not yet settled, whose winner's hold is gone. */
  predicate Stuck(s: Store, originalEnd: int) {
    Inv(s, originalEnd) && s.hasWallet && s.listing.status == Won && s.job.value.status != Done && !Funded(s)
  }

  lemma StuckStepStaysStuck(s: Store, a: Action, originalEnd: int)
    requires Stuck(s, originalEnd)
    ensures !StepLosesRelease(s, a) && Stuck(Step(s, a), originalEnd)
  {
    hide RowsOk, ProxiesOk, OutbidOk, LatestEnd, HoldsOk, Listed, ReleaseAll, PlaceBid, NoneConverted, Settled,
      DeleteFor, LosesRelease;
    if a.Bidding? {
      ClosedTakesNoBids(s, a.request, a.env);
    }
    StepKeepsInvIff(s, a, originalEnd);
    ListedNewest(s);
    HoldIndexInRange(s, originalEnd);
  }

  /** Once a winner's hold is gone, no sequence of retries, calls or closes ever finishes the settlement. */
  lemma {:induction false} StrandedWinnerNeverSettles(s: Store, actions: seq<Action>, originalEnd: int)
    requires Stuck(s, originalEnd)
    ensures Stuck(Run(s, actions), originalEnd)
    decreases actions
  {
    hide Stuck, Step;
    if actions != [] {
      StuckStepStaysStuck(s, actions[0], originalEnd);
      StrandedWinnerNeverSettles(Step(s, actions[0]), actions[1..], originalEnd);
    }
  }

  /** Closing an auction whose stranded leader meets the reserve gets it stuck. */
  lemma ClosingStrandedLeaderSticks(s: Store, job: Option<Job>, now: int, failAt: Option<nat>, originalEnd: int)
    requires Inv(s, originalEnd) && Open(s.listing.status) && s.hasWallet && !Funded(s)
    requires s.listing.terms.reserve <= Last(s.bids).amount
    ensures Stuck(AttemptSettlement(CloseListing(s.(job := job), now), now, failAt).0, originalEnd)
  {
    hide RowsOk, ProxiesOk, OutbidOk, LatestEnd, HoldsOk, Listed, ReleaseAll, NoneConverted, Settled;
    ClosingLeavesUnsettled(s, job, now, originalEnd);
    SettlementKeepsInv(CloseListing(s.(job := job), now), now, failAt, originalEnd);
    ListedNewest(s);
    HoldIndexInRange(s, originalEnd);
  }
}
