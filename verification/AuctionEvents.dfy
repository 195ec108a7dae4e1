/** What the outbox tells about an auction's bids and its end. */
module AuctionEvents {
  import opened Wrappers
  import opened AuctionSession
  import opened BidTable
  import opened ProxyTable
  import opened HoldLedger
  import opened BidValidation
  import opened AuctionStore
  import opened StoreInvariant
  import opened CounterPlan
  import opened CallGuards
  import opened CounterInvariant
  import opened AuctionClosure
  import opened AuctionRuns
  import opened BidHistory
  import opened AuctionGuarantees

  // ----- the end of an auction

  function EndedEvents(events: seq<Event>): seq<Event> {
    if events == [] then []
    else
      var e := events[|events| - 1];
      EndedEvents(events[..|events| - 1]) + if e.AuctionEnded? then [e] else []
  }

  lemma EndedEventsGrow(events: seq<Event>, e: Event)
    ensures EndedEvents(events + [e]) == EndedEvents(events) + if e.AuctionEnded? then [e] else []
  {
    assert (events + [e])[..|events + [e]| - 1] == events;
  }

  /** How the auction ended, as its rows tell it. */
  function Ending(s: Store): Event {
    var winner := if s.listing.status == Won then Winner(s.bids) else None;
    Event.AuctionEnded(s.listing.status,
                       if winner.Some? then Some(winner.value.bidder) else None,
                       if winner.Some? then Some(winner.value.amount) else None)
  }

  /** An open auction's end is untold; a closed one's is told once, as it is. */
  predicate EndToldOnce(s: Store) {
    EndedEvents(s.outbox) == if Open(s.listing.status) then [] else [Ending(s)]
  }

  lemma SwapTellsNothing(s: Store, previous: Option<BidRow>, bidder: string, amount: int, e: Env)
    ensures SwapHolds(s, previous, bidder, amount, e).0.outbox == s.outbox
  {
    hide Release, Rupiah;
  }

  lemma CommitTellsNoEnd(s: Store, r: Request, accepted: Accepted, status: Status, e: Env)
    ensures EndedEvents(Commit(s, r, accepted, status, e).0.outbox) == EndedEvents(s.outbox)
  {
    hide Winner, HasId, UpsertMax, SwapHolds, Tops, InsertFails, EndedEvents;
    SwapTellsNothing(WithMaximum(s, r), Winner(s.bids), r.bidder, accepted.newHighest.amount, e);
    var previous, amount := Winner(s.bids), accepted.newHighest.amount;
    if previous.Some? { EndedEventsGrow(s.outbox, Outbid(previous.value.bidder, amount)); }
  }

  lemma CounterTellsNoEnd(s: Store, time: int, e: Env)
    requires Current(s) && JustLed(s, time)
    ensures EndedEvents(ResolveProxies(s, time, e).0.outbox) == EndedEvents(s.outbox)
  {
    hide Core, PlanCounter, PlaceCounter, RowRefused, EndedEvents;
    var p := PlanCounter(s, time);
    if p.Counter? {
      PlannedCounter(s, time);
      NewestRowIsBacked(s);
      PlaceCounterExits(s, p, e);
      var outbid, row := Outbid(p.current.bidder, p.target), CounterRow(s, p, e);
      var placed := BidPlaced(row.id, row.bidder, row.amount,
                              Advance(s.listing, p.target, p.endTime, p.status).endTime);
      EndedEventsGrow(s.outbox, outbid);
      EndedEventsGrow(s.outbox, placed);
      EndedEventsGrow(s.outbox + [outbid], placed);
    }
  }

  lemma BiddingTellsNoEnd(s: Store, r: Request, e: Env)
    requires Core(s)
    ensures EndedEvents(PlaceBid(s, r, e).0.outbox) == EndedEvents(s.outbox)
  {
    hide Core, Commit, ResolveProxies, AdmitStandard, AdmitProxy, Matching, JustLed, EndedEvents, UpsertMax;
    var a := Admit(s, r, e.catalogOk);
    if a.Admitted? {
      CommitKeepsCore(s, r, e);
      CommitTellsNoEnd(s, r, a.accepted, a.status, e);
      var (s1, result) := Commit(s, r, a.accepted, a.status, e);
      if result.Ok? {
        PersistedIsJustLed(s, r, result.value, s1);
        CounterTellsNoEnd(s1, r.time, e);
        var s2 := ResolveProxies(s1, r.time, e).0;
        var row := result.value;
        EndedEventsGrow(s2.outbox, BidPlaced(row.id, row.bidder, row.amount, s1.listing.endTime));
      }
    }
  }

  lemma ClosingTellsEnd(s: Store, job: Option<Job>, now: int, failAt: Option<nat>)
    requires Core(s) && Open(s.listing.status) && EndToldOnce(s)
    ensures EndToldOnce(AttemptSettlement(CloseListing(s.(job := job), now), now, failAt).0)
  {
    hide Core, Settle, EndedEvents, Listed;
    ListedNewest(s);
    CoreWinner(s);
    var closed := CloseListing(s.(job := job), now);
    EndedEventsGrow(s.outbox, closed.outbox[|s.outbox|]);
  }

  lemma StepTellsEndOnce(s: Store, a: Action)
    requires Core(s) && EndToldOnce(s)
    ensures EndToldOnce(Step(s, a))
  {
    hide Core, EndedEvents, PlaceBid, Settle, CloseListing, DeleteFor;
    CoreStatus(s);
    if Open(s.listing.status) {
      match a
      case Bidding(r, e) =>
        BiddingTellsNoEnd(s, r, e);
        BiddingDoesNotClose(s, r, e);
      case Withdrawing(bidder) =>
      case Working(now, tx, failAt) =>
        var s0 := Reconcile(s, now);
        if Claimable(s0.job, now) {
          var claimed := s0.job.value.(status := Processing, lockedUntil := Some(now + CLAIM_SECS));
          ClosingTellsEnd(s, Some(claimed), now, failAt);
          assert s0.(job := Some(claimed)) == s.(job := Some(claimed));
        }
      case Closing(now, tx, failAt) =>
        assert s.(job := s.job) == s;
        ClosingTellsEnd(s, s.job, now, failAt);
    } else {
      if a.Bidding? { ClosedTakesNoBids(s, a.request, a.env); }
    }
  }

  lemma {:induction false} RunTellsEndOnce(s: Store, actions: seq<Action>)
    requires Core(s) && EndToldOnce(s)
    ensures EndToldOnce(Run(s, actions))
    decreases actions
  {
    hide Core, Step, EndToldOnce;
    if actions != [] {
      StepKeepsCore(s, actions[0]);
      StepTellsEndOnce(s, actions[0]);
      RunTellsEndOnce(Step(s, actions[0]), actions[1..]);
    }
  }

  /** Whatever retries, manual closes and worker passes a run mixes, the end is published exactly once, with the final
      winner and price. */
  lemma EndIsToldOnce(c: CreateCommand, now: int, hasWallet: bool, actions: seq<Action>, s: Store)
    requires Reachable(c, now, hasWallet, actions, s)
    ensures EndToldOnce(s)
  {
    hide Core, Run, EndToldOnce;
    var s0 := Create(c, now, hasWallet).value;
    CreatedIsCore(c, now, hasWallet);
    assert EndToldOnce(s0) by { FreshEndUntold(c, now, hasWallet); }
    RunTellsEndOnce(s0, actions);
  }

  lemma FreshEndUntold(c: CreateCommand, now: int, hasWallet: bool)
    requires Create(c, now, hasWallet).Some?
    ensures EndToldOnce(Create(c, now, hasWallet).value)
  {
    EndedEventsGrow([], AuctionCreated(c.endTime));
    assert [] + [AuctionCreated(c.endTime)] == [AuctionCreated(c.endTime)];
  }

  // ----- announced bids

  predicate Announced(events: seq<Event>, id: string) { exists e <- events :: e.BidPlaced? && e.bidId == id }

  /** Every row has been announced. */
  predicate AllAnnounced(s: Store) { forall x <- s.bids :: Announced(s.outbox, x.id) }

  /** Every announcement names a row, its bidder, and an amount the row has or had. */
  predicate Truthful(s: Store) {
    forall e <- s.outbox :: e.BidPlaced? ==>
      exists x <- s.bids :: x.id == e.bidId && x.bidder == e.bidder && e.amount <= x.amount
  }

  lemma AnnouncedGrows(events: seq<Event>, e: Event, id: string)
    ensures Announced(events + [e], id) <==> Announced(events, id) || (e.BidPlaced? && e.bidId == id)
  {
    assert (events + [e])[|events|] == e;
    if Announced(events, id) {
      var told :| told in events && told.BidPlaced? && told.bidId == id;
      assert told in events + [e];
    }
  }

  /** The counter is placed and everything about it written. */
  predicate CounterTold(s: Store, time: int, e: Env) {
    var p := PlanCounter(s, time);
    p.Counter? && !(s.hasWallet && !e.autoHoldOk) && !RowRefused(s, p, e) && !ReleaseLost(s, p, e)
  }

  lemma ResolveAnnounces(s: Store, time: int, e: Env, id: string)
    requires Current(s) && JustLed(s, time)
    ensures var (s', failure) := ResolveProxies(s, time, e);
            var p := PlanCounter(s, time);
            && (failure.None? <==> p.Idle? || CounterTold(s, time, e))
            && (Announced(s'.outbox, id)
                <==> Announced(s.outbox, id) || (CounterTold(s, time, e) && CounterRow(s, p, e).id == id))
            && (p.Idle? ==> s'.bids == s.bids)
            && (CounterTold(s, time, e) ==> s'.bids == CounterRows(s, p, e) && p.current == Last(s.bids))
            && (CounterTold(s, time, e) && !p.Raises() ==> !HasId(s.bids, CounterRow(s, p, e).id))
  {
    hide Core, PlanCounter, PlaceCounter, Announced, CounterRows, HasId;
    var p := PlanCounter(s, time);
    if p.Counter? {
      PlannedCounter(s, time);
      NewestRowIsBacked(s);
      PlaceCounterExits(s, p, e);
      var outbid, row := Outbid(p.current.bidder, p.target), CounterRow(s, p, e);
      var placed := BidPlaced(row.id, row.bidder, row.amount,
                              Advance(s.listing, p.target, p.endTime, p.status).endTime);
      AnnouncedGrows(s.outbox, outbid, id);
      AnnouncedGrows(s.outbox, placed, id);
      AnnouncedGrows(s.outbox + [outbid], placed, id);
    }
  }

  lemma CommitAnnouncesNothing(s: Store, r: Request, accepted: Accepted, status: Status, e: Env, id: string)
    ensures Announced(Commit(s, r, accepted, status, e).0.outbox, id) <==> Announced(s.outbox, id)
  {
    hide Winner, HasId, UpsertMax, SwapHolds, Tops, InsertFails, Announced;
    SwapTellsNothing(WithMaximum(s, r), Winner(s.bids), r.bidder, accepted.newHighest.amount, e);
    var previous, amount := Winner(s.bids), accepted.newHighest.amount;
    if previous.Some? { AnnouncedGrows(s.outbox, Outbid(previous.value.bidder, amount), id); }
  }

  /** What an announcement of the counter says. */
  predicate TellsOf(ev: Event, row: BidRow) {
    ev.BidPlaced? && ev.bidId == row.id && ev.bidder == row.bidder && ev.amount == row.amount
  }

  lemma ResolveTells(s: Store, time: int, e: Env, ev: Event)
    requires Current(s) && JustLed(s, time)
    requires ev in ResolveProxies(s, time, e).0.outbox && ev.BidPlaced?
    ensures ev in s.outbox || (CounterTold(s, time, e) && TellsOf(ev, CounterRow(s, PlanCounter(s, time), e)))
  {
    hide Core, PlanCounter, PlaceCounter, CounterRows, HasId;
    var p := PlanCounter(s, time);
    if p.Counter? {
      PlannedCounter(s, time);
      NewestRowIsBacked(s);
      PlaceCounterExits(s, p, e);
    }
  }

  lemma CommitTells(s: Store, r: Request, accepted: Accepted, status: Status, e: Env, ev: Event)
    requires ev in Commit(s, r, accepted, status, e).0.outbox && ev.BidPlaced?
    ensures ev in s.outbox
  {
    hide Winner, HasId, UpsertMax, SwapHolds, Tops, InsertFails;
    SwapTellsNothing(WithMaximum(s, r), Winner(s.bids), r.bidder, accepted.newHighest.amount, e);
  }

  /** The row an accepted call persists, as later found in the table. */
  lemma PersistedRowStays(s: Store, r: Request, e: Env)
    requires Core(s) && Accepts(s, r, e)
    ensures Admit(s, r, e.catalogOk).Admitted?
    ensures var a := Admit(s, r, e.catalogOk);
            var (s1, result) := Commit(s, r, a.accepted, a.status, e);
            var after := ResolveProxies(s1, r.time, e).0.bids;
            && result.Ok? && result.value.id == e.bidId && result.value.bidder == r.bidder
            && result.value.amount == Price(s, r)
            && Current(s1) && JustLed(s1, r.time)
            && s1.bids == s.bids + [result.value] && !HasId(s.bids, e.bidId)
            && s.bids <= after && |s.bids| < |after|
            && after[|s.bids|].id == e.bidId && after[|s.bids|].bidder == r.bidder
            && Price(s, r) <= after[|s.bids|].amount
  {
    hide Core, Commit, ResolveProxies, Admit, JustLed, HasId, Accepts, Price, Persisted, DrawsCounter, DrawsRefusal;
    var a := Admit(s, r, e.catalogOk);
    AcceptedCallPlans(s, r, e);
    var (s1, result) := Commit(s, r, a.accepted, a.status, e);
    PersistedTables(s, r, result.value, s1);
    CounterTouchesNewestOnly(s1, r.time, e);
    assert s1.bids[..|s1.bids| - 1] == s.bids;
  }

  lemma CounterRowIsTop(s: Store, p: Plan, e: Env)
    requires p.Counter? && s.bids != []
    ensures CounterRows(s, p, e) != [] && Last(CounterRows(s, p, e)) == CounterRow(s, p, e)
    ensures CounterRow(s, p, e) in CounterRows(s, p, e)
    ensures forall x <- CounterRows(s, p, e) :: x in s.bids || x == CounterRow(s, p, e)
  {
    assert CounterRows(s, p, e)[|CounterRows(s, p, e)| - 1] == CounterRow(s, p, e);
  }

  lemma KeptEventsStayTrue(s: Store, s': Store, ev: Event)
    requires Truthful(s) && s.bids <= s'.bids && ev in s.outbox && ev.BidPlaced?
    ensures exists x <- s'.bids :: x.id == ev.bidId && x.bidder == ev.bidder && ev.amount <= x.amount
  {
    var x :| x in s.bids && x.id == ev.bidId && x.bidder == ev.bidder && ev.amount <= x.amount;
    assert x in s'.bids;
  }

  /** A call announces only rows that are in the table when it returns. */
  lemma CallStaysTruthful(s: Store, r: Request, e: Env)
    requires Core(s) && Truthful(s)
    ensures Truthful(PlaceBid(s, r, e).0)
  {
    hide Core, PlaceBid, Accepts, Truthful;
    var s' := PlaceBid(s, r, e).0;
    CallOnlyAppends(s, r, e);
    forall ev <- s'.outbox | ev.BidPlaced?
      ensures exists x <- s'.bids :: x.id == ev.bidId && x.bidder == ev.bidder && ev.amount <= x.amount
    {
      if ev in s.outbox {
        KeptEventsStayTrue(s, s', ev);
      } else {
        NewEventIsTrue(s, r, e, ev);
      }
    }
    TruthfulEach(s');
  }

  lemma TruthfulEach(s: Store)
    ensures Truthful(s) <== forall ev <- s.outbox | ev.BidPlaced? ::
              exists x <- s.bids :: x.id == ev.bidId && x.bidder == ev.bidder && ev.amount <= x.amount
  {
  }

  /** A call that persists no bid announces nothing; one that does, nothing but that bid, at the amount it led with, and
      a counter, at the amount it leads with. */
  lemma CallAnnouncesExactly(s: Store, r: Request, e: Env, ev: Event)
    requires Core(s) && ev !in s.outbox
    requires ev in PlaceBid(s, r, e).0.outbox && ev.BidPlaced?
    ensures Accepts(s, r, e) && PlaceBid(s, r, e).0.bids != []
    ensures (ev.bidId == e.bidId && ev.bidder == r.bidder && ev.amount == Price(s, r))
            || TellsOf(ev, Last(PlaceBid(s, r, e).0.bids))
  {
    hide Core, Commit, ResolveProxies, Admit, JustLed, HasId, CounterRow, CounterRows, CounterTold, Accepts, Price;
    if !Accepts(s, r, e) { RefusedCallAnnouncesNothing(s, r, e); }
    PersistedRowStays(s, r, e);
    var a := Admit(s, r, e.catalogOk);
    var (s1, result) := Commit(s, r, a.accepted, a.status, e);
    var (s2, failure) := ResolveProxies(s1, r.time, e);
    if ev in s2.outbox {
      if ev in s1.outbox { CommitTells(s, r, a.accepted, a.status, e, ev); }
      ResolveTells(s1, r.time, e, ev);
      ResolveAnnounces(s1, r.time, e, ev.bidId);
      CounterToldPlans(s1, r.time, e);
      JustLedHasRows(s1, r.time);
      CounterRowIsTop(s1, PlanCounter(s1, r.time), e);
    }
  }

  lemma NewEventIsTrue(s: Store, r: Request, e: Env, ev: Event)
    requires Core(s) && ev !in s.outbox
    requires ev in PlaceBid(s, r, e).0.outbox && ev.BidPlaced?
    ensures exists x <- PlaceBid(s, r, e).0.bids :: x.id == ev.bidId && x.bidder == ev.bidder && ev.amount <= x.amount
  {
    hide Core, Commit, ResolveProxies, Admit, JustLed, HasId, Accepts, Price;
    CallAnnouncesExactly(s, r, e, ev);
    PersistedRowStays(s, r, e);
    var after := PlaceBid(s, r, e).0.bids;
    assert after[|s.bids|] in after && Last(after) in after;
  }

  lemma CounterToldPlans(s: Store, time: int, e: Env)
    requires CounterTold(s, time, e)
    ensures PlanCounter(s, time).Counter?
  {
    hide PlanCounter;
  }

  lemma UnknownIsUnannounced(s: Store, id: string)
    requires Truthful(s) && !HasId(s.bids, id)
    ensures !Announced(s.outbox, id)
  {
  }

  /** Which ids an accepted call announces: its own row's when it succeeds, and the counter's when that is written. */
  lemma AcceptedCallAnnounces(s: Store, r: Request, e: Env, id: string)
    requires Core(s) && Accepts(s, r, e)
    ensures Admit(s, r, e.catalogOk).Admitted?
    ensures var a := Admit(s, r, e.catalogOk);
            var s1 := Commit(s, r, a.accepted, a.status, e).0;
            var told := CounterTold(s1, r.time, e);
            && JustLed(s1, r.time)
            && (Announced(PlaceBid(s, r, e).0.outbox, id) <==>
                  || Announced(s.outbox, id)
                  || (PlaceBid(s, r, e).1.Placed? && id == e.bidId)
                  || (told && id == CounterRow(s1, PlanCounter(s1, r.time), e).id))
            && (told ==> PlaceBid(s, r, e).1.Placed?)
  {
    hide Core, Commit, ResolveProxies, Admit, JustLed, HasId, CounterRow, CounterRows, CounterTold, Announced, Accepts,
      Price;
    PersistedRowStays(s, r, e);
    var a := Admit(s, r, e.catalogOk);
    var (s1, result) := Commit(s, r, a.accepted, a.status, e);
    CommitAnnouncesNothing(s, r, a.accepted, a.status, e, id);
    ResolveAnnounces(s1, r.time, e, id);
    ResolveReplies(s1, r.time, e);
    var s2, row := ResolveProxies(s1, r.time, e).0, result.value;
    AnnouncedGrows(s2.outbox, BidPlaced(row.id, row.bidder, row.amount, s1.listing.endTime), id);
    if CounterTold(s1, r.time, e) { CounterToldPlans(s1, r.time, e); }
  }

  lemma ResolveReplies(s: Store, time: int, e: Env)
    ensures ResolveProxies(s, time, e).1.Some? ==> !ResolveProxies(s, time, e).1.value.Placed?
  {
    hide PlanCounter, HoldFunds, RaiseRow, InsertFails, Advance, UpsertPending, Tops;
  }

  /** Rows after an accepted call: the old ones, the caller's, and the counter's if it was written. */
  lemma AcceptedCallRows(s: Store, r: Request, e: Env, x: BidRow)
    requires Core(s) && Accepts(s, r, e) && PlaceBid(s, r, e).1.Placed? && x in PlaceBid(s, r, e).0.bids
    ensures Admit(s, r, e.catalogOk).Admitted?
    ensures var a := Admit(s, r, e.catalogOk);
            var s1 := Commit(s, r, a.accepted, a.status, e).0;
            && JustLed(s1, r.time)
            && (x in s.bids || x.id == e.bidId
                || (CounterTold(s1, r.time, e) && x.id == CounterRow(s1, PlanCounter(s1, r.time), e).id))
  {
    hide Core, Commit, ResolveProxies, Admit, JustLed, HasId, CounterRow, CounterRows, CounterTold, Announced, Accepts,
      Price;
    PersistedRowStays(s, r, e);
    var a := Admit(s, r, e.catalogOk);
    var (s1, result) := Commit(s, r, a.accepted, a.status, e);
    ResolveAnnounces(s1, r.time, e, "");
    ResolveReplies(s1, r.time, e);
    JustLedHasRows(s1, r.time);
    if CounterTold(s1, r.time, e) {
      CounterToldPlans(s1, r.time, e);
      CounterRowIsTop(s1, PlanCounter(s1, r.time), e);
    }
  }

  /** The ids an accepted call adds are new. */
  lemma AcceptedCallIdsAreNew(s: Store, r: Request, e: Env, x: BidRow)
    requires Core(s) && Accepts(s, r, e) && x in s.bids
    ensures x.id != e.bidId
    ensures Admit(s, r, e.catalogOk).Admitted?
    ensures var a := Admit(s, r, e.catalogOk);
            var s1 := Commit(s, r, a.accepted, a.status, e).0;
            CounterTold(s1, r.time, e) ==>
              PlanCounter(s1, r.time).Counter? && x.id != CounterRow(s1, PlanCounter(s1, r.time), e).id
  {
    hide Core, Commit, ResolveProxies, Admit, JustLed, CounterRows, CounterTold, Announced, Accepts, Price;
    PersistedRowStays(s, r, e);
    var a := Admit(s, r, e.catalogOk);
    var (s1, result) := Commit(s, r, a.accepted, a.status, e);
    ResolveAnnounces(s1, r.time, e, "");
    assert x in s1.bids;
    if CounterTold(s1, r.time, e) { CounterToldPlans(s1, r.time, e); }
  }

  /** Every row stays announced exactly until a call persists its bid and then fails on its counter. */
  lemma CallAnnouncesIff(s: Store, r: Request, e: Env)
    requires Core(s) && Truthful(s)
    ensures AllAnnounced(PlaceBid(s, r, e).0) <==> AllAnnounced(s) && !FailsOnCounter(s, r, e)
  {
    hide Core, PlaceBid, Announced, HasId, Truthful, Admit, HoldGranted, InsertFails, DrawsRefusal, DrawsCounter,
      CounterRowFails;
    var s' := PlaceBid(s, r, e).0;
    CallOnlyAppends(s, r, e);
    if Accepts(s, r, e) {
      AcceptedCallReplies(s, r, e);
      if PlaceBid(s, r, e).1.Placed? {
        forall x <- s'.bids ensures Announced(s'.outbox, x.id) || (x in s.bids && !Announced(s.outbox, x.id)) {
          AcceptedCallRows(s, r, e, x);
          AcceptedCallAnnounces(s, r, e, x.id);
        }
        forall x <- s.bids ensures Announced(s'.outbox, x.id) <==> Announced(s.outbox, x.id) {
          AcceptedCallIdsAreNew(s, r, e, x);
          AcceptedCallAnnounces(s, r, e, x.id);
        }
      } else {
        FailedCallLeavesUnannounced(s, r, e);
      }
    } else {
      RefusedCallAnnouncesNothing(s, r, e);
    }
  }

  lemma FailedCallLeavesUnannounced(s: Store, r: Request, e: Env)
    requires Core(s) && Truthful(s) && Accepts(s, r, e) && !PlaceBid(s, r, e).1.Placed?
    ensures !AllAnnounced(PlaceBid(s, r, e).0)
  {
    hide Core, Commit, ResolveProxies, Admit, JustLed, HasId, CounterRow, CounterRows, CounterTold, Announced,
      Truthful, Accepts, Price;
    PersistedRowStays(s, r, e);
    AcceptedCallAnnounces(s, r, e, e.bidId);
    UnknownIsUnannounced(s, e.bidId);
    var x := PlaceBid(s, r, e).0.bids[|s.bids|];
    assert x in PlaceBid(s, r, e).0.bids;
  }

  lemma RefusedCallAnnouncesNothing(s: Store, r: Request, e: Env)
    requires Core(s) && !Accepts(s, r, e)
    ensures PlaceBid(s, r, e).0.outbox == s.outbox
  {
    hide Core, ResolveProxies, AdmitStandard, AdmitProxy, Matching, Lead, UpsertMax, Winner, InsertFails, HoldGranted;
    if Admit(s, r, e.catalogOk).Admitted? { CommitsIff(s, r, e); }
  }

  // ----- announced bids over runs

  lemma ClosingEmits(s: Store, now: int, tx: Tx, failAt: Option<nat>)
    ensures var s' := ProcessPending(s, now, tx, failAt).0;
            s'.outbox == s.outbox || exists e: Event :: e.AuctionEnded? && s'.outbox == s.outbox + [e]
    ensures var s' := CloseNow(s, now, tx, failAt).0;
            s'.outbox == s.outbox || exists e: Event :: e.AuctionEnded? && s'.outbox == s.outbox + [e]
  {
    hide Settle, Listed, Decide, First;
  }

  lemma EndingAnnouncesNothing(s: Store, s': Store)
    requires s'.bids == s.bids
    requires s'.outbox == s.outbox || exists e: Event :: e.AuctionEnded? && s'.outbox == s.outbox + [e]
    ensures (AllAnnounced(s') <==> AllAnnounced(s)) && (Truthful(s) ==> Truthful(s'))
  {
    hide Announced;
    if s'.outbox != s.outbox {
      var e: Event :| e.AuctionEnded? && s'.outbox == s.outbox + [e];
      forall x <- s.bids ensures Announced(s'.outbox, x.id) <==> Announced(s.outbox, x.id) {
        AnnouncedGrows(s.outbox, e, x.id);
      }
    }
  }

  predicate StepFailsOnCounter(s: Store, a: Action) { a.Bidding? && FailsOnCounter(s, a.request, a.env) }

  /** No call along the run persists its bid and then fails on its counter. */
  predicate EveryBidAnswered(s: Store, actions: seq<Action>)
    decreases actions
  {
    actions == [] || (!StepFailsOnCounter(s, actions[0]) && EveryBidAnswered(Step(s, actions[0]), actions[1..]))
  }

  lemma StepAnnouncesIff(s: Store, a: Action)
    requires Core(s) && Truthful(s)
    ensures Truthful(Step(s, a))
    ensures AllAnnounced(Step(s, a)) <==> AllAnnounced(s) && !StepFailsOnCounter(s, a)
  {
    hide Core, PlaceBid, ProcessPending, CloseNow, FailsOnCounter, AllAnnounced, Truthful, DeleteFor;
    match a
    case Bidding(r, e) =>
      CallStaysTruthful(s, r, e);
      CallAnnouncesIff(s, r, e);
    case Withdrawing(bidder) => EndingAnnouncesNothing(s, DeleteProxy(s, bidder));
    case Working(now, tx, failAt) =>
      ClosingLeavesBids(s, now, tx, failAt);
      ClosingEmits(s, now, tx, failAt);
      EndingAnnouncesNothing(s, Step(s, a));
    case Closing(now, tx, failAt) =>
      ClosingLeavesBids(s, now, tx, failAt);
      ClosingEmits(s, now, tx, failAt);
      EndingAnnouncesNothing(s, Step(s, a));
  }

  lemma {:induction false} RunAnnouncesIff(s: Store, actions: seq<Action>)
    requires Core(s) && Truthful(s)
    ensures Truthful(Run(s, actions))
    ensures AllAnnounced(Run(s, actions)) <==> AllAnnounced(s) && EveryBidAnswered(s, actions)
    decreases actions
  {
    hide Core, Truthful, AllAnnounced, Step, StepFailsOnCounter;
    if actions != [] {
      StepAnnouncesIff(s, actions[0]);
      StepKeepsCore(s, actions[0]);
      RunAnnouncesIff(Step(s, actions[0]), actions[1..]);
    }
  }

  /** Announcements only ever name real bids; and every bid is announced just when no call failed after persisting its
      bid. */
  lemma EveryBidIsAnnouncedIff(c: CreateCommand, now: int, hasWallet: bool, actions: seq<Action>, s: Store)
    requires Reachable(c, now, hasWallet, actions, s)
    ensures Truthful(s)
    ensures AllAnnounced(s) <==> EveryBidAnswered(Create(c, now, hasWallet).value, actions)
  {
    hide Core, Run, EveryBidAnswered;
    CreatedIsCore(c, now, hasWallet);
    RunAnnouncesIff(Create(c, now, hasWallet).value, actions);
  }
}
