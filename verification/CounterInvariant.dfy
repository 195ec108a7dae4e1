/** The automatic counter keeps every stored auction in order, unless releasing the displaced hold fails. */
module CounterInvariant {
  import opened Wrappers
  import opened AuctionSession
  import opened BidTable
  import opened ProxyTable
  import opened HoldLedger
  import opened BidValidation
  import opened AuctionStore
  import opened StoreInvariant
  import opened CounterPlan
  import opened CallGuards

  // ----- raising the newest row in place

  function Raised(rows: seq<BidRow>, row: BidRow): seq<BidRow>
    requires rows != []
  {
    rows[..|rows| - 1] + [row]
  }

  lemma RaiseHitsNewestOnly(rows: seq<BidRow>, amount: int, time: int, hold: Option<nat>)
    requires rows != [] && DistinctIds(rows) && Last(rows).amount < amount
    ensures RaiseRow(rows, Last(rows).id, amount, time, hold) ==
              Raised(rows, Last(rows).(amount := amount, time := time, hold := hold))
    ensures RaiseRow(rows, Last(rows).id, amount, time, hold) != rows
  {
    var r := RaiseRow(rows, Last(rows).id, amount, time, hold);
    assert r[|rows| - 1].amount == amount;
  }

  lemma RowsOkRaised(l: Terms, rows: seq<BidRow>, row: BidRow)
    requires rows != [] && RowsOk(l, rows)
    requires row.id == Last(rows).id && row.bidder == Last(rows).bidder
    requires Last(rows).amount < row.amount && Last(rows).time <= row.time
    ensures RowsOk(l, Raised(rows, row))
  {
    assert Last(rows) in rows;
    forall x <- Raised(rows, row) ensures x.bidder != l.seller && l.startingPrice <= x.amount && l.startTime <= x.time {
      assert x in rows || x == row;
    }
  }

  lemma OutbidOkRaised(events: seq<Event>, rows: seq<BidRow>, row: BidRow)
    requires rows != [] && OutbidOk(events, rows) && row.bidder == Last(rows).bidder
    ensures OutbidOk(events, Raised(rows, row))
  {
    assert BiddersOf(Raised(rows, row)) == BiddersOf(rows);
  }

  lemma LatestEndRaised(originalEnd: int, rows: seq<BidRow>, row: BidRow)
    requires rows != [] && Last(rows).time <= row.time
    ensures LatestEnd(originalEnd, Raised(rows, row)) ==
              Max(LatestEnd(originalEnd, rows), row.time + ANTI_SNIPING_EXTENSION_SECS)
  {
    assert Raised(rows, row)[..|rows| - 1] == rows[..|rows| - 1];
  }

  /** A new hold for the raised row, and the old one released, back the raised rows. */
  lemma HoldsOkRaised(hasWallet: bool, rows: seq<BidRow>, holds: seq<Hold>, row: BidRow)
    requires rows != [] && HoldsOk(hasWallet, rows, holds) && NoneConverted(holds)
    requires row.bidder == Last(rows).bidder
    requires row.hold == if hasWallet then Some(|holds|) else None
    ensures var held := holds + [Hold(row.bidder, Rupiah(row.amount), Live)];
            var holds' := if hasWallet then Release(held, Last(rows).hold) else holds;
            HoldsOk(hasWallet, Raised(rows, row), holds') && NoneConverted(holds')
  {
    assert Last(rows) in rows;
    forall x <- Raised(rows, row) ensures x in rows || x == row {}
  }

  lemma HoldsOkOvertaken(hasWallet: bool, rows: seq<BidRow>, holds: seq<Hold>, row: BidRow)
    requires rows != [] && HoldsOk(hasWallet, rows, holds) && NoneConverted(holds)
    requires row.hold == if hasWallet then Some(|holds|) else None
    ensures var held := holds + [Hold(row.bidder, Rupiah(row.amount), Live)];
            var holds' := if hasWallet then Release(held, Last(rows).hold) else holds;
            HoldsOk(hasWallet, rows + [row], holds') && NoneConverted(holds')
  {
    assert Last(rows) in rows;
    forall x <- rows + [row] ensures x in rows || x == row {}
  }

  lemma EmitKeepsInvIff(s: Store, e: Event, originalEnd: int)
    requires !e.Outbid?
    ensures Inv(Emit(s, e), originalEnd) <==> Inv(s, originalEnd)
  {
    hide RowsOk, ProxiesOk, HoldsOk, LatestEnd;
    OutbidNamesGrow(s.outbox, e);
  }

  /** The store after the counter's row, money and schedule are all written. */
  function Countered(s: Store, p: Plan, rows: seq<BidRow>, holds: seq<Hold>): Store
    requires p.Counter?
  {
    var listing := Advance(s.listing, p.target, p.endTime, p.status);
    s.(bids := rows, holds := holds, listing := listing, job := UpsertPending(s.job, listing.endTime))
  }

  lemma RaisedIsCurrent(s: Store, p: Plan, holds: seq<Hold>, row: BidRow)
    requires Core(s) && p.Raises() && JustLed(s, p.time - 1) && p.current == Last(s.bids)
    requires Last(s.bids).amount < p.target && p.status in {Active, Extended}
    requires row.id == p.current.id && row.bidder == p.bidder && row.amount == p.target && row.time == p.time
    requires HoldsOk(s.hasWallet, Raised(s.bids, row), holds)
    ensures Current(Countered(s, p, Raised(s.bids, row), holds))
  {
    hide RowsOk, ProxiesOk, HoldsOk;
    RowsOkRaised(s.listing.terms, s.bids, row);
    RowsAreBacked(s.hasWallet, Raised(s.bids, row), holds);
  }

  lemma RaiseKeepsInv(s: Store, p: Plan, holds: seq<Hold>, row: BidRow, originalEnd: int)
    requires Inv(s, originalEnd) && p.Raises() && JustLed(s, p.time - 1) && p.current == Last(s.bids)
    requires Last(s.bids).amount < p.target && p.status in {Active, Extended}
    requires p.endTime == Max(s.listing.endTime, p.time + ANTI_SNIPING_EXTENSION_SECS)
    requires row.id == p.current.id && row.bidder == p.bidder && row.amount == p.target && row.time == p.time
    requires HoldsOk(s.hasWallet, Raised(s.bids, row), holds) && NoneConverted(holds)
    ensures Inv(Countered(s, p, Raised(s.bids, row), holds), originalEnd)
  {
    hide Core, HoldsOk, OutbidOk, LatestEnd, NoneConverted;
    RaisedIsCurrent(s, p, holds, row);
    OutbidOkRaised(s.outbox, s.bids, row);
    LatestEndRaised(originalEnd, s.bids, row);
  }

  lemma OvertakeKeepsInv(s: Store, p: Plan, holds: seq<Hold>, row: BidRow, originalEnd: int)
    requires Inv(s, originalEnd) && p.Counter? && s.bids != [] && p.current == Last(s.bids)
             && p.status in {Active, Extended}
    requires CanLead(s, p.bidder, p.target, p.time) && !HasId(s.bids, row.id)
    requires p.endTime == Max(s.listing.endTime, p.time + ANTI_SNIPING_EXTENSION_SECS)
    requires row.bidder == p.bidder && row.amount == p.target && row.time == p.time
    requires HoldsOk(s.hasWallet, s.bids + [row], holds) && NoneConverted(holds)
    ensures Inv(Emit(Countered(s, p, s.bids + [row], holds), Outbid(p.current.bidder, p.target)), originalEnd)
  {
    hide RowsOk, ProxiesOk, HoldsOk, OutbidOk, LatestEnd, NoneConverted, HasId;
    var status := if s.listing.endTime < p.endTime then p.status else s.listing.status;
    LeadKeepsInv(s, s.proxies, holds, row, p.endTime, status, originalEnd);
    assert Last(s.bids).amount < row.amount by { assert TermsOk(s.listing.terms); }
  }

  // ----- every exit of the counter

  function CounterRow(s: Store, p: Plan, e: Env): BidRow
    requires p.Counter?
  {
    var hold := HoldFunds(s, p.bidder, p.target).1;
    if p.Raises() then p.current.(amount := p.target, time := p.time, hold := hold)
    else BidRow(e.autoBidId, p.bidder, p.target, p.time, hold)
  }

  function CounterRows(s: Store, p: Plan, e: Env): seq<BidRow>
    requires p.Counter? && s.bids != []
  {
    if p.Raises() then Raised(s.bids, CounterRow(s, p, e)) else s.bids + [CounterRow(s, p, e)]
  }

  /** The ledger once the counter's hold is taken. */
  function CounterHolds(s: Store, p: Plan): seq<Hold>
    requires p.Counter?
  {
    HoldFunds(s, p.bidder, p.target).0.holds
  }

  predicate RowRefused(s: Store, p: Plan, e: Env) { !p.Raises() && InsertFails(s, e.autoBidId, e.autoInsertOk) }

  /** The counter is in the table but the hold it displaces cannot be released. */
  predicate ReleaseLost(s: Store, p: Plan, e: Env) {
    s.hasWallet && e.autoHoldOk && !RowRefused(s, p, e) && !e.autoReleaseOk
  }

  lemma PlaceCounterExits(s: Store, p: Plan, e: Env)
    requires p.Counter? && s.bids != [] && p.current == Last(s.bids) && p.current.amount < p.target
    requires DistinctIds(s.bids) && CacheOk(s.listing, s.bids)
    requires s.hasWallet ==> p.current.hold.Some?
    ensures PlaceCounter(s, p, e) ==
              if s.hasWallet && !e.autoHoldOk then (s, Some(WalletFailed))
              else if RowRefused(s, p, e) then
                var (held, hold) := HoldFunds(s, p.bidder, p.target);
                (UndoHold(held, hold, e.autoUndoOk), Some(DatabaseFailed))
              else if ReleaseLost(s, p, e) then
                (s.(bids := CounterRows(s, p, e), holds := CounterHolds(s, p)), Some(WalletFailed))
              else
                var holds := if s.hasWallet then Release(CounterHolds(s, p), p.current.hold) else s.holds;
                var after := Countered(s, p, CounterRows(s, p, e), holds);
                var told := if p.Raises() then after else Emit(after, Outbid(p.current.bidder, p.target));
                var row := CounterRow(s, p, e);
                (Emit(told, BidPlaced(row.id, row.bidder, row.amount, after.listing.endTime)), None)
  {
    hide DistinctIds, Release, Raised, HasId;
    RaiseHitsNewestOnly(s.bids, p.target, p.time, HoldFunds(s, p.bidder, p.target).1);
  }

  /** With the displaced hold not released the call stops before the listing follows the counter's row. */
  lemma LostReleaseLeavesListingBehind(s: Store, p: Plan, e: Env)
    requires p.Counter? && s.bids != [] && CacheOk(s.listing, s.bids) && Last(s.bids).amount < p.target
    ensures !CacheOk(s.listing, CounterRows(s, p, e))
  {
    assert Last(CounterRows(s, p, e)) == CounterRow(s, p, e);
  }

  lemma NewestRowIsBacked(s: Store)
    requires Core(s)
    ensures DistinctIds(s.bids)
    ensures s.hasWallet && s.bids != [] ==> Last(s.bids).hold.Some?
  {
    if s.bids != [] { assert Last(s.bids) in s.bids; }
  }

  /** A counter that goes through leaves the store in order, with its row newest. */
  lemma PlacedCounterKeepsInv(s: Store, time: int, e: Env, originalEnd: int)
    requires Inv(s, originalEnd) && JustLed(s, time) && PlanCounter(s, time).Counter?
    requires var p := PlanCounter(s, time);
             !RowRefused(s, p, e) && !ReleaseLost(s, p, e) && (s.hasWallet ==> e.autoHoldOk)
    ensures var (s', failure) := PlaceCounter(s, PlanCounter(s, time), e);
            Inv(s', originalEnd) && failure.None? && s'.bids == CounterRows(s, PlanCounter(s, time), e)
  {
    hide PlanCounter, RowsOk, ProxiesOk, HoldsOk, OutbidOk, LatestEnd, NoneConverted, HasId, DistinctIds,
      PlaceCounter, Raised, Release;
    var p, row := PlanCounter(s, time), CounterRow(s, PlanCounter(s, time), e);
    PlannedCounter(s, time);
    NewestRowIsBacked(s);
    PlaceCounterExits(s, p, e);
    var holds := if s.hasWallet then Release(CounterHolds(s, p), p.current.hold) else s.holds;
    var after := Countered(s, p, CounterRows(s, p, e), holds);
    var placed := BidPlaced(row.id, row.bidder, row.amount, after.listing.endTime);
    if p.Raises() {
      HoldsOkRaised(s.hasWallet, s.bids, s.holds, row);
      RaiseKeepsInv(s, p, holds, row, originalEnd);
      EmitKeepsInvIff(after, placed, originalEnd);
    } else {
      HoldsOkOvertaken(s.hasWallet, s.bids, s.holds, row);
      OvertakeKeepsInv(s, p, holds, row, originalEnd);
      EmitKeepsInvIff(Emit(after, Outbid(p.current.bidder, p.target)), placed, originalEnd);
    }
  }

  /** The counter keeps the store in order at every exit but one: its own row placed and the displaced hold not
      released. */
  lemma ResolveKeepsInvIff(s: Store, time: int, e: Env, originalEnd: int)
    requires Inv(s, originalEnd) && JustLed(s, time)
    ensures Inv(ResolveProxies(s, time, e).0, originalEnd)
            <==> !(PlanCounter(s, time).Counter? && ReleaseLost(s, PlanCounter(s, time), e))
  {
    hide PlanCounter, PlaceCounter, Inv, CacheOk, CounterRows, CounterHolds, RowRefused;
    var p := PlanCounter(s, time);
    InvIsCore(s, originalEnd);
    if p.Counter? {
      PlannedCounter(s, time);
      NewestRowIsBacked(s);
      PlaceCounterExits(s, p, e);
      if s.hasWallet && !e.autoHoldOk {
      } else if RowRefused(s, p, e) {
        HoldUndoneKeepsInv(s, p.bidder, p.target, e.autoUndoOk, originalEnd);
      } else if ReleaseLost(s, p, e) {
        LostReleaseLeavesListingBehind(s, p, e);
        InvNeedsCacheOk(PlaceCounter(s, p, e).0, originalEnd);
      } else {
        PlacedCounterKeepsInv(s, time, e, originalEnd);
      }
    }
  }

  lemma InvNeedsCacheOk(s: Store, originalEnd: int)
    ensures Inv(s, originalEnd) ==> CacheOk(s.listing, s.bids)
  {
  }

  // ----- a whole bidding call

  /** A bidding call keeps the store in order, at success and at every error exit, just when it does not lose the
      release of a displaced hold. */
  lemma PlaceBidKeepsInvIff(s: Store, r: Request, e: Env, originalEnd: int)
    requires Inv(s, originalEnd)
    ensures Inv(PlaceBid(s, r, e).0, originalEnd) <==> !LosesRelease(s, r, e)
  {
    hide Inv, Commit, ResolveProxies, PlanCounter, Persisted, JustLed, AdmitStandard, AdmitProxy, Matching, WithMaximum,
      InsertFails, HoldGranted, DrawsCounter, DrawsRefusal, CounterRaises, CounterRowFails, Core, Current;
    InvIsCore(s, originalEnd);
    var a := Admit(s, r, e.catalogOk);
    if a.Admitted? {
      CommitKeepsInv(s, r, e, originalEnd);
      CommitsIff(s, r, e);
      var (s1, result) := Commit(s, r, a.accepted, a.status, e);
      if result.Ok? {
        AcceptedCallPlans(s, r, e);
        PersistedTables(s, r, result.value, s1);
        ResolveKeepsInvIff(s1, r.time, e, originalEnd);
        var (s2, failure) := ResolveProxies(s1, r.time, e);
        var row := result.value;
        EmitKeepsInvIff(s2, BidPlaced(row.id, row.bidder, row.amount, s1.listing.endTime), originalEnd);
      }
    } else if a.MaxRaised? {
      RaisedMaxIsNotSellers(s, r, e);
      InvWithMaximum(s, r, originalEnd);
    }
  }

  lemma RaisedMaxIsNotSellers(s: Store, r: Request, e: Env)
    requires Core(s) && Admit(s, r, e.catalogOk).MaxRaised?
    ensures r.bidder != s.listing.terms.seller
  {
  }

  // ----- the core, whatever the call meets

  /** The counter's row fits on the rows it raises or tops. */
  lemma CounterRowsOk(s: Store, time: int, e: Env)
    requires Core(s) && JustLed(s, time) && PlanCounter(s, time).Counter? && !RowRefused(s, PlanCounter(s, time), e)
    ensures RowsOk(s.listing.terms, CounterRows(s, PlanCounter(s, time), e))
  {
    hide PlanCounter, RowsOk, ProxiesOk, HasId;
    var p, row := PlanCounter(s, time), CounterRow(s, PlanCounter(s, time), e);
    PlannedCounter(s, time);
    if p.Raises() {
      RowsOkRaised(s.listing.terms, s.bids, row);
    } else {
      RowsOkGrows(s.listing.terms, s.bids, row);
    }
  }

  lemma ResolveKeepsCore(s: Store, time: int, e: Env)
    requires Current(s) && JustLed(s, time)
    ensures Core(ResolveProxies(s, time, e).0)
  {
    hide PlanCounter, PlaceCounter, RowsOk, ProxiesOk, RowRefused, Raised, Release;
    var p := PlanCounter(s, time);
    if p.Counter? {
      PlannedCounter(s, time);
      NewestRowIsBacked(s);
      PlaceCounterExits(s, p, e);
      if !RowRefused(s, p, e) { CounterRowsOk(s, time, e); }
      CounterRowsAreBacked(s, p, e);
    }
  }

  lemma CounterRowsAreBacked(s: Store, p: Plan, e: Env)
    requires p.Counter? && s.bids != [] && (s.hasWallet ==> forall x <- s.bids :: x.hold.Some?)
    ensures s.hasWallet ==> forall x <- CounterRows(s, p, e) :: x.hold.Some?
    ensures CounterRows(s, p, e) != [] && Last(CounterRows(s, p, e)).amount == p.target
  {
    forall x <- CounterRows(s, p, e) ensures x in s.bids || x == CounterRow(s, p, e) {}
    assert Last(CounterRows(s, p, e)) == CounterRow(s, p, e);
  }

  /** Every bidding call keeps the core, a lost release included. */
  lemma PlaceBidKeepsCore(s: Store, r: Request, e: Env)
    requires Core(s)
    ensures Core(PlaceBid(s, r, e).0)
  {
    hide Core, Current, Commit, ResolveProxies, Persisted, JustLed, AdmitStandard, AdmitProxy, Matching, WithMaximum;
    var a := Admit(s, r, e.catalogOk);
    if a.Admitted? {
      CommitKeepsCore(s, r, e);
      var (s1, result) := Commit(s, r, a.accepted, a.status, e);
      if result.Ok? {
        PersistedIsJustLed(s, r, result.value, s1);
        ResolveKeepsCore(s1, r.time, e);
        var s2, row := ResolveProxies(s1, r.time, e).0, result.value;
        EmitKeepsCore(s2, BidPlaced(row.id, row.bidder, row.amount, s1.listing.endTime));
      }
    } else if a.MaxRaised? {
      RaisedMaxIsNotSellers(s, r, e);
      ProxiesWithMaximum(s, r);
    }
  }

  lemma EmitKeepsCore(s: Store, event: Event)
    requires Core(s)
    ensures Core(Emit(s, event))
  {
  }

  // ----- the reply

  lemma ResolveRepliesIff(s: Store, time: int, e: Env)
    requires Current(s) && JustLed(s, time)
    ensures var p, failure := PlanCounter(s, time), ResolveProxies(s, time, e).1;
            && (failure.Some? <==>
                  || p.Blocked?
                  || (p.Counter? && ((s.hasWallet && (!e.autoHoldOk || !e.autoReleaseOk)) || RowRefused(s, p, e))))
            && (p.Blocked? ==> failure == Some(Rejected(p.error)))
            && (failure.Some? ==> !failure.value.Placed?)
  {
    hide Core, PlanCounter, PlaceCounter, RowRefused, JustLed;
    var p := PlanCounter(s, time);
    if p.Counter? {
      PlannedCounter(s, time);
      NewestRowIsBacked(s);
      JustLedHasRows(s, time);
      PlaceCounterExits(s, p, e);
    }
  }

  /** An accepted call answers with its row exactly when its counter, if any, goes through; refused as too low, the
      counter's error is the call's. */
  lemma AcceptedCallReplies(s: Store, r: Request, e: Env)
    requires Core(s) && Accepts(s, r, e)
    ensures var reply := PlaceBid(s, r, e).1;
            && (reply.Placed? <==> !FailsOnCounter(s, r, e))
            && (DrawsRefusal(s, r) ==> reply == Rejected(BidTooLow(Price(s, r) + s.listing.terms.increment)))
  {
    hide Core, Admit, Commit, ResolveProxies, PlanCounter, Persisted, JustLed, DrawsCounter, DrawsRefusal,
      CounterRaises, CounterRowFails, Price, InsertFails, Accepts, CounterComes, CounterRefused, WithMaximum, HasId;
    AcceptedCallPlans(s, r, e);
    var a := Admit(s, r, e.catalogOk);
    var (s1, result) := Commit(s, r, a.accepted, a.status, e);
    ResolveRepliesIff(s1, r.time, e);
    CounterPlanIff(s1, r.time);
    PersistedTables(s, r, result.value, s1);
  }

  lemma PersistedTables(s: Store, r: Request, row: BidRow, s1: Store)
    requires Persisted(s, r, row, s1)
    ensures s1.hasWallet == s.hasWallet && s1.listing.terms == s.listing.terms && s1.bids == s.bids + [row]
    ensures s1.proxies == WithMaximum(s, r).proxies
    ensures row.bidder == r.bidder && row.time == r.time && !HasId(s.bids, row.id)
  {
  }
}
