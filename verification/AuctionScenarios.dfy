/** Short runs from creation in which an expectation about an auction fails. */
module AuctionScenarios {
  import opened Wrappers
  import opened AuctionSession
  import opened BidTable
  import opened ProxyTable
  import opened HoldLedger
  import opened BidValidation
  import opened AuctionStore
  import opened StoreInvariant
  import opened CounterPlan
  import opened CallGuards
  import opened CounterInvariant
  import opened AuctionClosure
  import opened AuctionRuns
  import opened BidHistory
  import opened StrayHolds
  import opened AuctionGuarantees
  import opened AuctionEvents
  import opened ClosureProgress
  import opened AbandonedJobs
  import opened LostReleases
  import opened ProxyStability
  import opened SessionRefinement

  // ----- a run that strands its winner

  lemma RunCons(s: Store, a: Action, rest: seq<Action>)
    ensures Run(s, [a] + rest) == Run(Step(s, a), rest)
    ensures Sound(s, [a] + rest) <==> !StepLosesRelease(s, a) && Sound(Step(s, a), rest)
  {
    hide Step, StepLosesRelease;
    assert ([a] + rest)[1..] == rest;
  }

  lemma ReleasedCallLosesNothing(s: Store, r: Request, e: Env)
    requires e.autoReleaseOk
    ensures !LosesRelease(s, r, e)
  {
    hide Admit, Commit, PlanCounter, RowRefused;
  }

  const EXAMPLE := CreateCommand("lot", "sue", "ENGLISH", 1000, 1000, 100, 1000, 2000)

  /** Every answer is yes, except the caller's hold as given. */
  function Answers(id: string, holdOk: bool): Env { Yes(id).(holdOk := holdOk) }

  /** Every answer is yes. */
  function Yes(id: string): Env { Env(true, id, true, true, true, true, "auto", true, true, true, true) }

  const ANN := Standard("ann", 1000, 1100)
  const BOB := Standard("bob", 1100, 1200)

  function ExampleStore(highest: Option<int>, bids: seq<BidRow>, outbox: seq<Event>, holds: seq<Hold>): Store {
    Store(Listing(Terms("sue", 1000, 100, 1000, 1000), 2000, Active, highest), bids, [],
          Some(Job(2000, Pending, 0, None)), outbox, holds, true)
  }

  function Fresh(): Store { ExampleStore(None, [], [AuctionCreated(2000)], []) }

  /** Ann leads with the hold in the given state. */
  function AnnsLead(state: HoldState): Store {
    ExampleStore(Some(1000), [BidRow("b1", "ann", 1000, 1100, Some(0))],
                 [AuctionCreated(2000), BidPlaced("b1", "ann", 1000, 2000)], [Hold("ann", 10, state)])
  }

  lemma ExampleCreates()
    ensures Create(EXAMPLE, 1000, true) == Some(Fresh())
  {
    assert EXAMPLE.listingId[0] == 'l' && EXAMPLE.seller[0] == 's' && EXAMPLE.auctionType[0] == 'E';
    assert 'l' in EXAMPLE.listingId && 's' in EXAMPLE.seller && 'E' in EXAMPLE.auctionType;
  }

  lemma AnnLeads()
    ensures PlaceBid(Fresh(), ANN, Answers("b1", true)).0 == AnnsLead(Live)
  {
    hide Validate;
    StandardChainUnfolds(Context(Fresh().listing, "ann", 1100, 1000, None));
  }

  lemma BobIsRefused()
    ensures PlaceBid(AnnsLead(Live), BOB, Answers("b2", false)).0 == AnnsLead(Released)
  {
    hide Validate, Listed;
    var s := AnnsLead(Live);
    assert Matching(s.bids, "bob", 1100, 1200).None?;
    NewestIsListedFirst(s.bids);
    StandardChainUnfolds(Context(s.listing, "bob", 1200, 1100, Some(s.bids[0])));
  }

  /** Ann leads, Bob's hold is refused after Ann's was released, and the auction closes with Ann as an uncharged
      winner. */
  lemma AWinnerCanBeStranded()
    ensures var anns, bobs := Bidding(ANN, Answers("b1", true)), Bidding(BOB, Answers("b2", false));
            var actions := [anns] + ([bobs] + [Working(2000, Commits, None)]);
            exists s :: Reached(EXAMPLE, 1000, true, actions, s) && Stuck(s, EXAMPLE.endTime)
  {
    hide Stuck, Inv, PlaceBid, Run, Sound, Create, LosesRelease, AttemptSettlement, CloseListing;
    var closing := Working(2000, Commits, None);
    ExampleCreates();
    AnnLeads();
    BobIsRefused();
    RunCons(Fresh(), Bidding(ANN, Answers("b1", true)), [Bidding(BOB, Answers("b2", false))] + [closing]);
    RunCons(AnnsLead(Live), Bidding(BOB, Answers("b2", false)), [closing]);
    ReleasedCallLosesNothing(Fresh(), ANN, Answers("b1", true));
    ReleasedCallLosesNothing(AnnsLead(Live), BOB, Answers("b2", false));
    RunOne(AnnsLead(Released), closing);
    CreatedIsInOrder(EXAMPLE, 1000, true);
    StepKeepsInvIff(Fresh(), Bidding(ANN, Answers("b1", true)), 2000);
    StepKeepsInvIff(AnnsLead(Live), Bidding(BOB, Answers("b2", false)), 2000);
    ClosingStrandedLeaderSticks(AnnsLead(Released), Some(Job(2000, Processing, 0, Some(2060))), 2000, None, 2000);
    var s := Step(AnnsLead(Released), closing);
    var anns, bobs := Bidding(ANN, Answers("b1", true)), Bidding(BOB, Answers("b2", false));
    assert Reached(EXAMPLE, 1000, true, [anns] + ([bobs] + [closing]), s);
  }

  lemma RunOne(s: Store, a: Action)
    ensures Run(s, [a]) == Step(s, a)
    ensures Sound(s, [a]) <==> !StepLosesRelease(s, a)
  {
    hide Step, StepLosesRelease;
  }

  // ----- the maxima of the next two runs

  const ANNS_PROXY := Proxy("ann", 5000, 1100)
  const BOBS_PROXY := Proxy("bob", 1250, 1200)
  const CATS_BID := Standard("cat", 1300, 1300)

  const ANNS_MAX := ProxyRow("ann", 5000, 1100)
  const BOBS_MAX := ProxyRow("bob", 1250, 1200)

  // ----- a sole proxy leads and is raised by its own counter

  /** Ann's proxy leads at the starting price, before the counter. */
  function AnnCommitted(): Store {
    Store(Listing(Terms("sue", 1000, 100, 1000, 1000), 2000, Active, Some(1000)),
          [BidRow("b1", "ann", 1000, 1100, Some(0))], [ANNS_MAX], Some(Job(2000, Pending, 0, None)),
          [AuctionCreated(2000)], [Hold("ann", 10, Live)], true)
  }

  function AnnAccepted(): Accepted { Accepted(Bid("ann", 1000, 1100), None, false, 2000) }

  lemma AnnIsAdmitted()
    ensures Admit(Fresh(), ANNS_PROXY, true) == Admitted(AnnAccepted(), Active)
  {
    assert Listed(Fresh().bids) == [];
  }

  lemma AnnCommits(e: Env)
    requires e.bidId == "b1" && e.holdOk && e.insertOk
    ensures Commit(Fresh(), ANNS_PROXY, AnnAccepted(), Active, e)
            == (AnnCommitted(), Ok(BidRow("b1", "ann", 1000, 1100, Some(0))))
  {
    hide UpsertMax, Lead, Winner;
    var s := Fresh();
    var row := BidRow("b1", "ann", 1000, 1100, Some(0));
    NoRowsNoWinner();
    assert WithMaximum(s, ANNS_PROXY) == s.(proxies := [ANNS_MAX]) by { FirstMaximum("ann", 5000, 1100); }
    assert !HasId(s.bids, "b1");
    var held := s.(proxies := [ANNS_MAX], holds := [Hold("ann", 10, Live)]);
    assert s.holds + [Hold("ann", Rupiah(1000), Live)] == held.holds;
    assert Lead(held, row, None, 2000, Active) == AnnCommitted() by { FirstLead(held, row); }
  }

  lemma FirstMaximum(bidder: string, max: int, now: int)
    ensures UpsertMax([], bidder, max, now) == [ProxyRow(bidder, max, now)]
  {
  }

  lemma FirstLead(s: Store, row: BidRow)
    requires s.bids == [] && Tops(s.listing, row.amount)
    ensures Lead(s, row, None, s.listing.endTime, s.listing.status)
         == s.(bids := [row], listing := s.listing.(cachedHighest := Some(row.amount)),
              job := UpsertPending(s.job, s.listing.endTime))
  {
    assert s.bids + [row] == [row];
  }

  function AnnsRaise(): Plan { Counter("ann", BidRow("b1", "ann", 1000, 1100, Some(0)), 1100, 1101, 2000, Active) }

  lemma AnnPlans()
    ensures PlanCounter(AnnCommitted(), 1100) == AnnsRaise()
  {
    NewestIsListedFirst(AnnCommitted().bids);
  }

  /** Every answer is yes, except the caller's hold and the counter's release as given. */
  function AnswersWith(id: string, holdOk: bool, autoReleaseOk: bool): Env {
    Yes(id).(holdOk := holdOk, autoReleaseOk := autoReleaseOk)
  }

  /** A created auction whose very first call leaves two live holds: the counter's release fails. */
  lemma ALostReleaseLeavesTwoHolds()
    ensures exists s ::
              && Create(EXAMPLE, 1000, true) == Some(s)
              && LosesRelease(s, ANNS_PROXY, AnswersWith("b1", true, false))
              && var after := PlaceBid(s, ANNS_PROXY, AnswersWith("b1", true, false)).0;
                 |after.holds| == 2 && after.holds[0].state == Live && after.holds[1].state == Live && |after.bids| == 1
  {
    hide PlanCounter, Admit, Commit, Create;
    var e := AnswersWith("b1", true, false);
    ExampleCreates();
    AnnIsAdmitted();
    AnnCommits(e);
    AnnPlans();
    var s1 := AnnCommitted();
    assert DistinctIds(s1.bids) && CacheOk(s1.listing, s1.bids);
    PlaceCounterExits(s1, AnnsRaise(), e);
    assert LosesRelease(Fresh(), ANNS_PROXY, e);
  }

  // ----- a refused rival's maximum blocks a later counter

  function AnnRaised(): Store {
    Store(Listing(Terms("sue", 1000, 100, 1000, 1000), 2000, Active, Some(1100)),
          [BidRow("b1", "ann", 1100, 1101, Some(1))], [ANNS_MAX], Some(Job(2000, Pending, 0, None)),
          [AuctionCreated(2000), BidPlaced("b1", "ann", 1100, 2000), BidPlaced("b1", "ann", 1000, 2000)],
          [Hold("ann", 10, Released), Hold("ann", 11, Live)], true)
  }

  lemma AnnRaises(e: Env)
    requires e.autoHoldOk && e.autoInsertOk && e.autoReleaseOk
    ensures ResolveProxies(AnnCommitted(), 1100, e) == (AnnRaised().(outbox := AnnRaised().outbox[..2]), None)
  {
    hide PlanCounter, PlaceCounter;
    AnnPlans();
    var s1 := AnnCommitted();
    PlaceCounterExits(s1, AnnsRaise(), e);
    assert CounterRows(s1, AnnsRaise(), e) == AnnRaised().bids;
    assert Release(CounterHolds(s1, AnnsRaise()), Some(0)) == AnnRaised().holds;
    assert AnnRaised().outbox[..2] == s1.outbox + [AnnRaised().outbox[1]];
  }

  lemma AnnsCall(e: Env)
    requires e == AnswersWith("b1", true, true)
    ensures PlaceBid(Fresh(), ANNS_PROXY, e).0 == AnnRaised()
  {
    hide Admit, Commit, ResolveProxies;
    AnnIsAdmitted();
    AnnCommits(e);
    AnnRaises(e);
    assert AnnRaised().outbox == AnnRaised().outbox[..2] + [BidPlaced("b1", "ann", 1000, 2000)];
  }

  function BobRefused(): Store {
    AnnRaised().(proxies := [ANNS_MAX, BOBS_MAX], holds := [Hold("ann", 10, Released), Hold("ann", 11, Released)])
  }

  lemma BobsCall(e: Env)
    requires e == AnswersWith("b2", false, true)
    ensures PlaceBid(AnnRaised(), BOBS_PROXY, e).0 == BobRefused()
  {
    hide UpsertMax, Winner, Listed, Lead, InsertFails;
    var s := AnnRaised();
    NewestIsListedFirst(s.bids);
    assert Winner(s.bids) == Some(s.bids[0]);
    assert WithMaximum(s, BOBS_PROXY) == s.(proxies := BobRefused().proxies) by { SecondMaximum(); }
    assert Release(s.holds, Some(1)) == BobRefused().holds;
  }

  lemma SecondMaximum()
    ensures UpsertMax([ANNS_MAX], "bob", 1250, 1200) == [ANNS_MAX, BOBS_MAX]
  {
    assert [ANNS_MAX][1..] == [];
    FirstMaximum("bob", 1250, 1200);
  }

  lemma CatIsAdmitted(e: Env)
    requires e == AnswersWith("b3", true, true)
    ensures Admit(BobRefused(), CATS_BID, true).Admitted?
  {
    hide Validate, Listed;
    var s := BobRefused();
    NewestIsListedFirst(s.bids);
    assert Matching(s.bids, "cat", 1300, 1300).None?;
    StandardChainUnfolds(Context(s.listing, "cat", 1300, 1300, Some(s.bids[0])));
  }

  lemma MaximaOfBoth()
    ensures Top([ANNS_MAX, BOBS_MAX]) == ANNS_MAX && CompetitorCap([ANNS_MAX, BOBS_MAX], "ann") == Some(1250)
  {
    assert [ANNS_MAX, BOBS_MAX][1..] == [BOBS_MAX] && [BOBS_MAX][1..] == [];
    assert CompetitorCap([BOBS_MAX], "ann") == Some(1250);
  }

  lemma CatIsBlocked(e: Env)
    requires e == AnswersWith("b3", true, true) && Inv(BobRefused(), 2000)
    ensures var (s', reply) := PlaceBid(BobRefused(), CATS_BID, e);
            reply.Rejected? && reply.error.BidTooLow? && |s'.bids| == 2 && Last(s'.bids).bidder == "cat"
  {
    hide Inv, Admit, Commit, PlaceBid, Top, CompetitorCap;
    var s := BobRefused();
    CatIsAdmitted(e);
    MaximaOfBoth();
    assert !HasId(s.bids, "b3");
    AcceptedCallReplies(s, CATS_BID, e);
    RefusedCounterLeavesRow(s, CATS_BID, e, 2000);
  }

  lemma RefusedCounterLeavesRow(s: Store, r: Request, e: Env, originalEnd: int)
    requires Inv(s, originalEnd) && Accepts(s, r, e) && DrawsRefusal(s, r)
    ensures |PlaceBid(s, r, e).0.bids| == |s.bids| + 1 && Last(PlaceBid(s, r, e).0.bids).bidder == r.bidder
  {
    hide Inv, Core, Admit, Commit, PlanCounter, Persisted, JustLed, DrawsRefusal, DrawsCounter;
    InvIsCore(s, originalEnd);
    AcceptedCallPlans(s, r, e);
    var a := Admit(s, r, e.catalogOk);
    var (s1, result) := Commit(s, r, a.accepted, a.status, e);
    PersistedTables(s, r, result.value, s1);
  }

  /** From creation: Bob's maximum is noted although his hold is refused, and Cat's standard bid is then persisted but
      answered with an error. */
  lemma APersistedBidCanBeAnsweredWithAnError()
    ensures exists actions, s ::
              && Reached(EXAMPLE, 1000, true, actions, s)
              && var (s', reply) := PlaceBid(s, CATS_BID, AnswersWith("b3", true, true));
                 reply.Rejected? && reply.error.BidTooLow? && |s'.bids| == |s.bids| + 1 && Last(s'.bids).bidder == "cat"
  {
    hide Inv, PlaceBid, Run, Sound, Create, LosesRelease;
    var anns := Bidding(ANNS_PROXY, AnswersWith("b1", true, true));
    var bobs := Bidding(BOBS_PROXY, AnswersWith("b2", false, true));
    ExampleCreates();
    AnnsCall(anns.env);
    BobsCall(bobs.env);
    RunCons(Fresh(), anns, [bobs]);
    RunOne(AnnRaised(), bobs);
    ReleasedCallLosesNothing(Fresh(), ANNS_PROXY, anns.env);
    ReleasedCallLosesNothing(AnnRaised(), BOBS_PROXY, bobs.env);
    CreatedIsInOrder(EXAMPLE, 1000, true);
    StepKeepsInvIff(Fresh(), anns, 2000);
    StepKeepsInvIff(AnnRaised(), bobs, 2000);
    assert Reached(EXAMPLE, 1000, true, [anns] + [bobs], BobRefused());
    CatIsBlocked(AnswersWith("b3", true, true));
  }

  // ----- a lost release of an overtaken bidder's hold

  lemma BobIsAdmitted()
    ensures Admit(AnnRaised(), BOBS_PROXY, true).Admitted?
  {
    hide Listed;
    NewestIsListedFirst(AnnRaised().bids);
  }

  lemma BobIsOvertaken(e: Env)
    requires e == Yes("b2").(autoReleaseOk := false)
    ensures LosesRelease(AnnRaised(), BOBS_PROXY, e) && !CounterRaises(AnnRaised(), BOBS_PROXY)
    ensures Price(AnnRaised(), BOBS_PROXY) == 1200
  {
    hide Admit, UpsertMax, Top, CompetitorCap;
    BobIsAdmitted();
    SecondMaximum();
    MaximaOfBoth();
    assert !HasId(AnnRaised().bids, "b2") && !HasId(AnnRaised().bids, "auto");
  }

  /** Ann's counter overtakes Bob and his hold is not released: it stays live and his row's for good, although he is not
      the winner and the auction cannot end unsold. */
  lemma AnOvertakenBidderKeepsItsHold(later: seq<Action>)
    ensures exists actions, s ::
              && Reachable(EXAMPLE, 1000, true, actions, s)
              && Carried(s.bids, 2) && 2 < |s.holds| && s.holds[2].user == "bob"
              && Left(Run(s, later), 2) && Run(s, later).listing.status != Unsold
  {
    hide Inv, Core, PlaceBid, Run, Create, LosesRelease, Carried, CounterRaises, Price, Staged;
    var anns := Bidding(ANNS_PROXY, AnswersWith("b1", true, true));
    var e := Yes("b2").(autoReleaseOk := false);
    var bobs := Bidding(BOBS_PROXY, e);
    ExampleCreates();
    AnnsCall(anns.env);
    RunCons(Fresh(), anns, [bobs]);
    RunOne(AnnRaised(), bobs);
    ReleasedCallLosesNothing(Fresh(), ANNS_PROXY, anns.env);
    CreatedIsInOrder(EXAMPLE, 1000, true);
    StepKeepsInvIff(Fresh(), anns, 2000);
    BobIsOvertaken(e);
    LostReleaseLeavesHold(AnnRaised(), BOBS_PROXY, e, 2000);
    LostReleaseBreaksExactly(AnnRaised(), BOBS_PROXY, e, 2000);
    var s := Step(AnnRaised(), bobs);
    assert Reachable(EXAMPLE, 1000, true, [anns] + [bobs], s);
    DisplacedHoldIsReleasedIff(EXAMPLE, 1000, true, [anns] + [bobs], s, 2, later);
  }

  const ANNS_LATE_PROXY := Proxy("ann", 5000, 1880)

  /** Ann's first bid comes 120 seconds before the end, and the release of its own raise is lost: the raised bid, a
      second later, has 119 seconds. */
  lemma ABidCanBeASecondShort()
    ensures exists s ::
              && Create(EXAMPLE, 1000, true) == Some(s)
              && var after := PlaceBid(s, ANNS_LATE_PROXY, AnswersWith("b1", true, false)).0;
                 after.bids != [] && Last(after.bids).time + 119 == after.listing.endTime
  {
    hide Inv, Core, PlaceBid, Create, LosesRelease, Price;
    var s, r, e := Fresh(), ANNS_LATE_PROXY, AnswersWith("b1", true, false);
    ExampleCreates();
    CreatedIsInOrder(EXAMPLE, 1000, true);
    AnnRaisesLate(e);
    LostReleaseBreaksExactly(s, r, e, 2000);
  }

  lemma AnnRaisesLate(e: Env)
    requires e == AnswersWith("b1", true, false)
    ensures LosesRelease(Fresh(), ANNS_LATE_PROXY, e)
  {
    assert Listed(Fresh().bids) == [];
    FirstMaximum("ann", 5000, 1880);
  }

  // ----- a lost undo

  /** Ann's hold is granted, her row is refused, and the wallet does not take the hold back: it is live for good. */
  lemma ALostUndoLeavesAStrayHold(later: seq<Action>)
    ensures var failing := Bidding(ANN, Yes("b1").(insertOk := false, undoOk := false));
            exists s ::
              && Reached(EXAMPLE, 1000, true, [failing], s) && s.bids == []
              && Stray(s, 0) && Stray(Run(s, later), 0)
  {
    hide Inv, Run, Sound, Create, Step, Stray, LosesRelease;
    var e := Yes("b1").(insertOk := false, undoOk := false);
    ExampleCreates();
    var s := Step(Fresh(), Bidding(ANN, e));
    RunOne(Fresh(), Bidding(ANN, e));
    RefusedRowLosesNoRelease(Fresh(), ANN, e);
    assert s.bids == [] && Stray(s, 0) by { AnnsHoldStrays(e); }
    assert Reached(EXAMPLE, 1000, true, [Bidding(ANN, e)], s);
    StrayHoldStaysLive(s, later, 0);
  }

  lemma RefusedRowLosesNoRelease(s: Store, r: Request, e: Env)
    requires !e.insertOk
    ensures !StepLosesRelease(s, Bidding(r, e))
  {
    hide Admit;
  }

  lemma AnnsHoldStrays(e: Env)
    requires e == Yes("b1").(insertOk := false, undoOk := false)
    ensures Step(Fresh(), Bidding(ANN, e)).bids == [] && Stray(Step(Fresh(), Bidding(ANN, e)), 0)
  {
    hide Validate, Winner;
    StandardChainUnfolds(Context(Fresh().listing, "ann", 1100, 1000, None));
    NoRowsNoWinner();
  }

  // ----- a failed closing

  /** The closing transaction fails at the end: the auction is open and its job is due thirty seconds later. */
  lemma AFailedClosingPostponesTheJob()
    ensures exists s ::
              && Reached(EXAMPLE, 1000, true, [Working(2000, Fails, None)], s) && Open(s.listing.status)
              && !DueAtEnd(s) && s.job.Some? && s.job.value.dueAt == 2030
  {
    hide Create, Run, Sound;
    ExampleCreates();
    RunOne(Fresh(), Working(2000, Fails, None));
    var s := Step(Fresh(), Working(2000, Fails, None));
    assert Reached(EXAMPLE, 1000, true, [Working(2000, Fails, None)], s);
  }

  // ----- broken closing transactions

  /** The commit of the first closing attempt fails: the auction has ended and stays open under every later worker pass,
      bid and withdrawal. */
  lemma ABrokenCommitLeavesTheAuctionOpen(later: seq<Action>)
    requires forall a <- later :: ComesTooLate(a, EXAMPLE.endTime)
    ensures exists s ::
              && Reached(EXAMPLE, 1000, true, [Working(2000, Breaks, None)], s) && s.listing.endTime == 2000
              && Abandoned(Run(s, later)) && Run(s, later).listing.status == Active
  {
    hide Create, Run, Sound, ComesTooLate;
    ExampleCreates();
    RunOne(Fresh(), Working(2000, Breaks, None));
    var s := Step(Fresh(), Working(2000, Breaks, None));
    assert Reached(EXAMPLE, 1000, true, [Working(2000, Breaks, None)], s);
    OnlyAManualCloseHelps(s, later);
  }

  /** Ann's auction once it is won and the first settlement has failed. */
  function AnnWon(): Store {
    AnnsLead(Live).(listing := AnnsLead(Live).listing.(status := Won), job := Some(Job(2030, Settling, 1, None)),
                    outbox := AnnsLead(Live).outbox + [Event.AuctionEnded(Won, Some("ann"), Some(1000))])
  }

  lemma AnnsSettlementFails()
    ensures Step(AnnsLead(Live), Working(2000, Commits, Some(0))) == AnnWon()
  {
    hide Listed;
    NewestIsListedFirst(AnnsLead(Live).bids);
  }

  /** Ann wins, the wallet fails once, and the retry's transaction breaks: her live hold is neither paid out nor given
      back by anything that follows. */
  lemma ABrokenRetryNeverChargesTheWinner(later: seq<Action>)
    ensures exists actions, s ::
              && Reached(EXAMPLE, 1000, true, actions, s) && s.listing.status == Won && Funded(s) && s.bids != []
              && Abandoned(Run(s, later)) && Run(s, later).holds == s.holds && s.holds == [Hold("ann", 10, Live)]
  {
    hide PlaceBid, Run, Sound, Create, LosesRelease, ProcessPending;
    var anns, failing, breaking := Bidding(ANN, Answers("b1", true)), Working(2000, Commits, Some(0)),
        Working(2030, Breaks, None);
    ExampleCreates();
    AnnLeads();
    AnnsSettlementFails();
    RunCons(Fresh(), anns, [failing] + [breaking]);
    RunCons(AnnsLead(Live), failing, [breaking]);
    RunOne(AnnWon(), breaking);
    ReleasedCallLosesNothing(Fresh(), ANN, Answers("b1", true));
    var s := Step(AnnWon(), breaking);
    BreakingClaims(AnnWon(), 2030);
    assert Reached(EXAMPLE, 1000, true, [anns] + ([failing] + [breaking]), s);
    AbandonedSettlementIsFinal(s, later);
  }

  lemma BreakingClaims(s: Store, now: int)
    requires Claimable(s.job, now)
    ensures Step(s, Working(now, Breaks, None))
            == s.(job := Some(s.job.value.(status := Processing, lockedUntil := Some(now + CLAIM_SECS))))
  {
  }

  // ----- a negative maximum

  const BOBS_NEGATIVE := Proxy("bob", -1, 1200)

  /** Bob leads at 1100 with a maximum of minus one cent. */
  lemma ANegativeMaximumLeads()
    ensures exists actions, s ::
              && Reached(EXAMPLE, 1000, true, actions, s)
              && var (s', reply) := PlaceBid(s, BOBS_NEGATIVE, Yes("b2"));
                 && reply.Placed? && s'.bids != []
                 && Last(s'.bids).bidder == "bob" && Last(s'.bids).amount == 1100
                 && s'.proxies == [ProxyRow("bob", -1, 1200)]
  {
    hide Inv, PlaceBid, Run, Sound, Create, LosesRelease;
    var anns := Bidding(ANN, Answers("b1", true));
    ExampleCreates();
    AnnLeads();
    RunOne(Fresh(), anns);
    ReleasedCallLosesNothing(Fresh(), ANN, anns.env);
    CreatedIsInOrder(EXAMPLE, 1000, true);
    StepKeepsInvIff(Fresh(), anns, 2000);
    assert Reached(EXAMPLE, 1000, true, [anns], AnnsLead(Live));
    BobLeadsNegatively();
  }

  lemma BobLeadsNegatively()
    requires Inv(AnnsLead(Live), 2000)
    ensures var (s', reply) := PlaceBid(AnnsLead(Live), BOBS_NEGATIVE, Yes("b2"));
            && reply.Placed? && s'.bids != []
            && Last(s'.bids).bidder == "bob" && Last(s'.bids).amount == 1100
            && s'.proxies == [ProxyRow("bob", -1, 1200)]
  {
    hide Inv, Core, Admit, Commit, JustLed, Persisted, PlanCounter, CompetitorCap, UpsertMax;
    InvIsCore(AnnsLead(Live), 2000);
    var s, e := AnnsLead(Live), Yes("b2");
    ChallengerMaximumPassesIff(s, "bob", -1, 1200, 2000);
    assert Admit(s, BOBS_NEGATIVE, true).Admitted? by { ProxyAdmission(s, "bob", -1, 1200); }
    assert !HasId(s.bids, "b2");
    FirstMaximum("bob", -1, 1200);
    AcceptedCallReplies(s, BOBS_NEGATIVE, e);
    AcceptedCallPlans(s, BOBS_NEGATIVE, e);
    var a := Admit(s, BOBS_NEGATIVE, true);
    var (s1, result) := Commit(s, BOBS_NEGATIVE, a.accepted, a.status, e);
    PersistedTables(s, BOBS_NEGATIVE, result.value, s1);
    assert PlanCounter(s1, 1200).Idle?;
  }

  lemma ProxyAdmission(s: Store, bidder: string, max: int, time: int)
    ensures Admit(s, Proxy(bidder, max, time), true) == AdmitProxy(s, bidder, max, time)
  {
  }

  // ----- a counter 120 seconds before the end

  const BOBS_LATE_PROXY := Proxy("bob", 1250, 1879)

  /** The counter due here replaces the leader, and the session marks it as an extension. */
  predicate CounterExtendsSession(s: Store, time: int) {
    var p := PlanCounter(s, time);
    && p.Counter? && !p.Raises()
    && View(s).PlaceBid(p.bidder, p.target, p.time).1.Ok?
    && View(s).PlaceBid(p.bidder, p.target, p.time).0.status == Extended
  }

  /** The call draws such a counter, succeeds, and leaves the listing active. */
  predicate MissesExtension(s: Store, r: Request, e: Env) {
    var a := Admit(s, r, e.catalogOk);
    && a.Admitted? && CounterExtendsSession(Commit(s, r, a.accepted, a.status, e).0, r.time)
    && PlaceBid(s, r, e).1.Placed? && PlaceBid(s, r, e).0.listing.status == Active
  }

  /** Ann's counter comes exactly 120 seconds before the end: the session it bids in is extended, the listing is not. */
  lemma ACounterCanMissTheExtension()
    ensures exists actions, s ::
              Reached(EXAMPLE, 1000, true, actions, s) && MissesExtension(s, BOBS_LATE_PROXY, Yes("b2"))
  {
    hide Inv, PlaceBid, Run, Sound, Create, LosesRelease, MissesExtension;
    var anns := Bidding(ANNS_PROXY, AnswersWith("b1", true, true));
    ExampleCreates();
    AnnsCall(anns.env);
    RunOne(Fresh(), anns);
    ReleasedCallLosesNothing(Fresh(), ANNS_PROXY, anns.env);
    CreatedIsInOrder(EXAMPLE, 1000, true);
    StepKeepsInvIff(Fresh(), anns, 2000);
    assert Reached(EXAMPLE, 1000, true, [anns], AnnRaised());
    BobIsLate();
  }

  lemma LateCallDrawsCounter()
    ensures var s, r, e := AnnRaised(), BOBS_LATE_PROXY, Yes("b2");
            && Accepts(s, r, e) && DrawsCounter(s, r) && !CounterRaises(s, r) && !CounterRowFails(s, r, e)
            && !DrawsRefusal(s, r) && !HasId(s.bids, "b2") && !HasId(s.bids, "auto")
  {
    hide Admit, CompetitorCap, UpsertMax, Top;
    var s, r := AnnRaised(), BOBS_LATE_PROXY;
    BobIsAdmittedLate();
    assert !HasId(s.bids, "b2") && !HasId(s.bids, "auto");
    assert WithMaximum(s, r).proxies == [ANNS_MAX, ProxyRow("bob", 1250, 1879)] by { LateMaximum(); }
    LateMaxima();
  }

  lemma BobIsLate()
    requires Inv(AnnRaised(), 2000)
    ensures MissesExtension(AnnRaised(), BOBS_LATE_PROXY, Yes("b2"))
  {
    hide Inv, Core, Admit, Commit, JustLed, Persisted, PlanCounter, PlaceCounter, Winner, Accepts, DrawsCounter,
      DrawsRefusal, CounterRaises, CounterRowFails;
    InvIsCore(AnnRaised(), 2000);
    var s, r, e := AnnRaised(), BOBS_LATE_PROXY, Yes("b2");
    LateCallDrawsCounter();
    AcceptedCallPlans(s, r, e);
    var a := Admit(s, r, true);
    var (s1, result) := Commit(s, r, a.accepted, a.status, e);
    AcceptedCallReplies(s, r, e);
    AdmittedBidCanLead(s, r, true);
    CommitWrites(s, r, e, 2000);
    PersistedTables(s, r, result.value, s1);
    LateCounter(s1, e);
  }

  /** The counter that replaces a leader 120 seconds before the end of an active auction. */
  lemma LateCounter(s: Store, e: Env)
    requires Inv(s, 2000) && JustLed(s, 1879) && PlanCounter(s, 1879).Counter? && !PlanCounter(s, 1879).Raises()
    requires s.listing.endTime == 2000 && s.listing.status == Active && e.autoHoldOk && e.autoInsertOk
             && e.autoReleaseOk
    requires !HasId(s.bids, e.autoBidId)
    ensures var p := PlanCounter(s, 1879);
            && View(s).PlaceBid(p.bidder, p.target, p.time).1.Ok?
            && View(s).PlaceBid(p.bidder, p.target, p.time).0.status == Extended
            && ResolveProxies(s, 1879, e).0.listing.status == Active
  {
    hide Inv, JustLed, PlanCounter, PlaceCounter, Winner, Release;
    var p := PlanCounter(s, 1879);
    InvIsCore(s, 2000);
    PlannedCounter(s, 1879);
    NewestRowIsBacked(s);
    JustLedHasRows(s, 1879);
    NewestIsPriced(s);
    OvertakingPlan(s, 1879);
    PlaceCounterExits(s, p, e);
  }

  lemma BobIsAdmittedLate()
    ensures Admit(AnnRaised(), BOBS_LATE_PROXY, true).Admitted?
  {
    hide Listed;
    NewestIsListedFirst(AnnRaised().bids);
  }

  lemma LateMaximum()
    ensures UpsertMax([ANNS_MAX], "bob", 1250, 1879) == [ANNS_MAX, ProxyRow("bob", 1250, 1879)]
  {
    assert [ANNS_MAX][1..] == [];
    FirstMaximum("bob", 1250, 1879);
  }

  lemma LateMaxima()
    ensures Top([ANNS_MAX, ProxyRow("bob", 1250, 1879)]) == ANNS_MAX
    ensures CompetitorCap([ANNS_MAX, ProxyRow("bob", 1250, 1879)], "ann") == Some(1250)
  {
    var bobs := ProxyRow("bob", 1250, 1879);
    assert [ANNS_MAX, bobs][1..] == [bobs] && [bobs][1..] == [];
    assert CompetitorCap([bobs], "ann") == Some(1250);
  }
}
