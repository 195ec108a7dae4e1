/** Live holds that no row carries: which calls leave one, and that nothing ever gives it back. */
module StrayHolds {
  import opened Wrappers
  import opened AuctionSession
  import opened BidTable
  import opened ProxyTable
  import opened HoldLedger
  import opened BidValidation
  import opened AuctionStore
  import opened StoreInvariant
  import opened CounterPlan
  import opened CallGuards
  import opened CounterInvariant
  import opened AuctionClosure
  import opened AuctionRuns
  import opened BidHistory

  predicate Carried(rows: seq<BidRow>, h: nat) { exists x <- rows :: x.hold == Some(h) }

  /** The hold is live and no row knows it. */
  predicate Stray(s: Store, h: nat) { h < |s.holds| && s.holds[h].state == Live && !Carried(s.bids, h) }

  predicate Tidy(s: Store) { forall h | 0 <= h < |s.holds| && s.holds[h].state == Live :: Carried(s.bids, h) }

  // ----- a stray hold stays

  lemma ReleaseSpares(s: Store, other: Option<nat>, h: nat)
    requires Stray(s, h) && other != Some(h)
    ensures Stray(ReleaseHold(s, other), h) && ReleaseHold(s, other).bids == s.bids
  {
  }

  lemma SwapSpares(s: Store, previous: Option<BidRow>, bidder: string, amount: int, e: Env, h: nat)
    requires Stray(s, h) && (previous.Some? ==> previous.value in s.bids)
    ensures var (s1, result) := SwapHolds(s, previous, bidder, amount, e);
            Stray(s1, h) && s1.bids == s.bids && (result.Ok? ==> result.value != Some(h))
  {
    hide Release;
  }

  lemma CommitSpares(s: Store, r: Request, accepted: Accepted, status: Status, e: Env, h: nat)
    requires Stray(s, h)
    ensures Stray(Commit(s, r, accepted, status, e).0, h)
  {
    hide Winner, HasId, UpsertMax, SwapHolds, Carried;
    WinnerIsARow(s.bids);
    var s0 := WithMaximum(s, r);
    var previous, amount := Winner(s.bids), accepted.newHighest.amount;
    assert Stray(s0, h);
    SwapSpares(s0, previous, r.bidder, amount, e, h);
    var (s1, result) := SwapHolds(s0, previous, r.bidder, amount, e);
    if result.Ok? {
      ReleaseSpares(s1, result.value, h);
      CarriedGrows(s1.bids, BidRow(e.bidId, r.bidder, amount, r.time, result.value), h);
    }
  }

  lemma CarriedGrows(rows: seq<BidRow>, row: BidRow, h: nat)
    ensures Carried(rows + [row], h) <==> Carried(rows, h) || row.hold == Some(h)
  {
    assert (rows + [row])[|rows|] == row;
    if Carried(rows, h) {
      var x :| x in rows && x.hold == Some(h);
      assert x in rows + [row];
    }
  }

  lemma RaiseSpares(rows: seq<BidRow>, id: string, amount: int, time: int, hold: Option<nat>, h: nat)
    requires !Carried(rows, h) && hold != Some(h)
    ensures !Carried(RaiseRow(rows, id, amount, time, hold), h)
  {
    forall x <- RaiseRow(rows, id, amount, time, hold) ensures x.hold != Some(h) {
      var i :| 0 <= i < |rows| && RaiseRow(rows, id, amount, time, hold)[i] == x;
      assert rows[i] in rows;
    }
  }

  lemma RowsHoldIsCarried(rows: seq<BidRow>, x: BidRow, h: nat)
    requires x in rows && !Carried(rows, h)
    ensures x.hold != Some(h)
  {
  }

  lemma DeletionSpares(rows: seq<BidRow>, id: string, h: nat)
    requires !Carried(rows, h)
    ensures !Carried(Where(rows, (x: BidRow) => x.id != id), h)
  {
  }

  lemma CounterSpares(s: Store, p: Plan, e: Env, h: nat)
    requires Stray(s, h) && p.Counter? && p.current in s.bids
    ensures Stray(PlaceCounter(s, p, e).0, h)
  {
    hide HasId, RaiseRow, Advance, UpsertPending, Tops, Release, Carried, Where;
    var hold := HoldFunds(s, p.bidder, p.target).1;
    var row := BidRow(e.autoBidId, p.bidder, p.target, p.time, hold);
    RowsHoldIsCarried(s.bids, p.current, h);
    RaiseSpares(s.bids, p.current.id, p.target, p.time, hold, h);
    CarriedGrows(s.bids, row, h);
    DeletionSpares(s.bids + [row], row.id, h);
  }

  lemma ResolveSpares(s: Store, time: int, e: Env, h: nat)
    requires Stray(s, h)
    ensures Stray(ResolveProxies(s, time, e).0, h)
  {
    hide PlaceCounter, Winner, Top, CompetitorCap, Carried;
    WinnerIsARow(s.bids);
    if PlanCounter(s, time).Counter? { CounterSpares(s, PlanCounter(s, time), e, h); }
  }

  lemma CallSpares(s: Store, r: Request, e: Env, h: nat)
    requires Stray(s, h)
    ensures Stray(PlaceBid(s, r, e).0, h)
  {
    hide Admit, Commit, ResolveProxies, Carried, UpsertMax;
    var a := Admit(s, r, e.catalogOk);
    if a.Admitted? {
      CommitSpares(s, r, a.accepted, a.status, e, h);
      var s1 := Commit(s, r, a.accepted, a.status, e).0;
      ResolveSpares(s1, r.time, e, h);
    }
  }

  lemma {:induction false} ReleaseAllSpares(holds: seq<Hold>, rows: seq<BidRow>, failAt: Option<nat>, h: nat)
    requires h < |holds| && !Carried(rows, h)
    ensures var holds' := ReleaseAll(holds, rows, failAt).0; h < |holds'| && holds'[h] == holds[h]
    decreases rows
  {
    if rows != [] {
      assert rows[0] in rows;
      forall x <- rows[1..] ensures x.hold != Some(h) { assert x in rows; }
      var later := if failAt.Some? && 0 < failAt.value then Some(failAt.value - 1) else None;
      ReleaseAllSpares(holds, rows[1..], later, h);
      ReleaseAllSpares(Release(holds, rows[0].hold), rows[1..], later, h);
    }
  }

  lemma SettleSpares(s: Store, failAt: Option<nat>, h: nat)
    requires h < |s.holds| && !Carried(s.bids, h)
    ensures var holds := Settle(s, failAt).0; h < |holds| && holds[h] == s.holds[h]
  {
    hide ReleaseAll;
    assert Listed(s.bids) != [] ==> Listed(s.bids)[0] in Listed(s.bids);
    assert !Carried(Listed(s.bids), h);
    ReleaseAllSpares(s.holds, Listed(s.bids), failAt, h);
  }

  lemma AttemptSpares(s: Store, now: int, failAt: Option<nat>, h: nat)
    requires Stray(s, h)
    ensures Stray(AttemptSettlement(s, now, failAt).0, h)
  {
    hide Settle, Carried;
    SettleSpares(s, failAt, h);
  }

  /** No step of the service, in any store and with any answers, gives a stray hold back or pays it out. */
  lemma StepKeepsStray(s: Store, a: Action, h: nat)
    requires Stray(s, h)
    ensures Stray(Step(s, a), h)
  {
    hide PlaceBid, AttemptSettlement, Carried, Decide, Listed;
    match a
    case Bidding(r, e) => CallSpares(s, r, e, h);
    case Withdrawing(_) =>
    case Working(now, tx, failAt) =>
      var s0 := Reconcile(s, now);
      if Claimable(s0.job, now) {
        var claimed := s0.(job := Some(s0.job.value.(status := Processing, lockedUntil := Some(now + CLAIM_SECS))));
        AttemptSpares(claimed, now, failAt, h);
        AttemptSpares(CloseListing(claimed, now), now, failAt, h);
      }
    case Closing(now, tx, failAt) => AttemptSpares(CloseListing(s, now), now, failAt, h);
  }

  /** Whatever bids, closings and settlements follow, a stray hold stays live for good. */
  lemma {:induction false} StrayHoldStaysLive(s: Store, actions: seq<Action>, h: nat)
    requires Stray(s, h)
    ensures Stray(Run(s, actions), h)
    decreases actions
  {
    hide Step, Stray;
    if actions != [] {
      StepKeepsStray(s, actions[0], h);
      StrayHoldStaysLive(Step(s, actions[0]), actions[1..], h);
    }
  }
  // ----- which calls leave a stray hold

  /** The caller's hold was granted, its row is refused, and the wallet does not take the hold back. */
  predicate UndoLost(s: Store, r: Request, accepted: Accepted, e: Env) {
    && s.hasWallet && !e.undoOk && InsertFails(s, e.bidId, e.insertOk)
    && SwapHolds(WithMaximum(s, r), Winner(s.bids), r.bidder, accepted.newHighest.amount, e).1.Ok?
  }

  /** The counter's hold is granted, and either its row is refused and the hold not taken back, or the row is raised to
      it and the hold it had is not released. */
  predicate CounterStrands(s: Store, p: Plan, e: Env) {
    && p.Counter? && s.hasWallet && e.autoHoldOk
    && ((RowRefused(s, p, e) && !e.autoUndoOk) || (p.Raises() && !e.autoReleaseOk))
  }

  lemma ReleaseKeepsTidy(s: Store, h: Option<nat>)
    requires Tidy(s)
    ensures Tidy(ReleaseHold(s, h))
  {
  }

  /** A hold nobody carries is harmless just when it is given back. */
  lemma UndoneHoldIsTidyIff(s: Store, user: string, cents: int, ok: bool, originalEnd: int)
    requires Inv(s, originalEnd) && Tidy(s)
    ensures var (held, hold) := HoldFunds(s, user, cents); Tidy(UndoHold(held, hold, ok)) <==> !s.hasWallet || ok
  {
    hide RowsOk, ProxiesOk, OutbidOk, LatestEnd, JobOk, CacheOk, TermsOk;
    var (held, hold) := HoldFunds(s, user, cents);
    if s.hasWallet && !ok {
      assert held.holds[|s.holds|].state == Live;
      assert !Carried(s.bids, |s.holds|);
    }
  }

  lemma FundedRowKeepsTidy(s: Store, row: BidRow)
    requires Tidy(s) && row.hold == HoldFunds(s, row.bidder, row.amount).1
    ensures Tidy(HoldFunds(s, row.bidder, row.amount).0.(bids := s.bids + [row]))
  {
    hide Carried;
    forall h: nat ensures Carried(s.bids + [row], h) <==> Carried(s.bids, h) || row.hold == Some(h) {
      CarriedGrows(s.bids, row, h);
    }
  }

  lemma TidyIsAboutHolds(s: Store, s': Store)
    requires s.bids == s'.bids && s.holds == s'.holds
    ensures Tidy(s) <==> Tidy(s')
  {
  }

  lemma CommitTidyIff(s: Store, r: Request, e: Env, originalEnd: int)
    requires Inv(s, originalEnd) && Tidy(s) && Admit(s, r, e.catalogOk).Admitted?
    ensures var a := Admit(s, r, e.catalogOk);
            var (s1, result) := Commit(s, r, a.accepted, a.status, e);
            if result.Ok? then Tidy(s1) else Tidy(s1) <==> !UndoLost(s, r, a.accepted, e)
  {
    hide Inv, Core, Tidy, Winner, HasId, UpsertMax, Admit, HoldFunds, Release;
    InvIsCore(s, originalEnd);
    var a := Admit(s, r, e.catalogOk);
    var amount := a.accepted.newHighest.amount;
    AdmittedBidCanLead(s, r, e.catalogOk);
    CoreWinner(s);
    ClearedIsInOrder(s, r, originalEnd);
    var cleared := Cleared(s, r);
    TidyIsAboutHolds(s, WithMaximum(s, r));
    if s.bids != [] { ReleaseKeepsTidy(WithMaximum(s, r), Last(s.bids).hold); }
    UndoneHoldIsTidyIff(cleared, r.bidder, amount, e.undoOk, originalEnd);
    var (held, hold) := HoldFunds(cleared, r.bidder, amount);
    var row := BidRow(e.bidId, r.bidder, amount, r.time, hold);
    FundedRowKeepsTidy(cleared, row);
    FundsLeaveTables(cleared, r.bidder, amount);
    LeadLeavesHolds(held, row, Winner(s.bids), a.accepted.newEndAt, a.status);
  }

  lemma FundsLeaveTables(s: Store, user: string, cents: int)
    ensures HoldFunds(s, user, cents).0 == s.(holds := HoldFunds(s, user, cents).0.holds)
  {
  }

  lemma LeadLeavesHolds(s: Store, row: BidRow, previous: Option<BidRow>, endTime: int, status: Status)
    ensures var s' := Lead(s, row, previous, endTime, status); Tidy(s') <==> Tidy(s.(bids := s.bids + [row]))
  {
    hide Carried;
  }

  lemma NewestCarriesItsHold(s: Store, time: int, originalEnd: int)
    requires Inv(s, originalEnd) && JustLed(s, time) && s.hasWallet
    ensures s.bids != [] && Last(s.bids) in s.bids && Last(s.bids).hold.Some? && Last(s.bids).hold.value < |s.holds|
    ensures s.holds[Last(s.bids).hold.value].state == Live
    ensures forall i | 0 <= i < |s.bids| - 1 :: s.bids[i].hold != Last(s.bids).hold
    ensures forall x <- s.bids :: x.hold != Some(|s.holds|)
  {
    assert Last(s.bids) in s.bids;
  }

  /** Raising the row drops the hold it had: released, nothing is stray; not released, it is. */
  lemma RaisedTidyIff(s: Store, time: int, row: BidRow, holds: seq<Hold>, released: bool, originalEnd: int)
    requires Inv(s, originalEnd) && JustLed(s, time) && s.hasWallet && Tidy(s) && row.hold == Some(|s.holds|)
    requires var held := s.holds + [Hold(row.bidder, Rupiah(row.amount), Live)];
             holds == if released then Release(held, Last(s.bids).hold) else held
    ensures Tidy(s.(bids := Raised(s.bids, row), holds := holds)) <==> released
    ensures !released ==> Stray(s.(bids := Raised(s.bids, row), holds := holds), Last(s.bids).hold.value)
  {
    hide Inv, JustLed;
    NewestCarriesItsHold(s, time, originalEnd);
    var s' := s.(bids := Raised(s.bids, row), holds := holds);
    var old' := Last(s.bids).hold.value;
    forall x <- Raised(s.bids, row) ensures x.hold != Some(old') {
      var i :| 0 <= i < |Raised(s.bids, row)| && Raised(s.bids, row)[i] == x;
    }
    if !released {
      assert s'.holds[old'].state == Live && !Carried(s'.bids, old');
    } else {
      forall h | 0 <= h < |holds| && holds[h].state == Live ensures Carried(s'.bids, h) {
        if h == |s.holds| {
          assert s'.bids[|s'.bids| - 1] == row;
        } else {
          assert Carried(s.bids, h);
          var x :| x in s.bids && x.hold == Some(h);
          var i :| 0 <= i < |s.bids| && s.bids[i] == x;
          assert s'.bids[i] == x;
        }
      }
    }
  }

  lemma OvertakenIsTidy(s: Store, row: BidRow, holds: seq<Hold>, released: bool, old': Option<nat>)
    requires Tidy(s) && row.hold == if s.hasWallet then Some(|s.holds|) else None
    requires var held := if s.hasWallet then s.holds + [Hold(row.bidder, Rupiah(row.amount), Live)] else s.holds;
             holds == if released then Release(held, old') else held
    ensures Tidy(s.(bids := s.bids + [row], holds := holds))
  {
    hide Carried;
    forall h: nat ensures Carried(s.bids + [row], h) <==> Carried(s.bids, h) || row.hold == Some(h) {
      CarriedGrows(s.bids, row, h);
    }
  }

  lemma WalletlessIsTidy(s: Store, originalEnd: int)
    requires Inv(s, originalEnd) && !s.hasWallet
    ensures s.holds == []
  {
  }

  lemma CounterTidyIff(s: Store, time: int, e: Env, originalEnd: int)
    requires Inv(s, originalEnd) && JustLed(s, time) && Tidy(s) && PlanCounter(s, time).Counter?
    ensures Tidy(PlaceCounter(s, PlanCounter(s, time), e).0) <==> !CounterStrands(s, PlanCounter(s, time), e)
  {
    hide Inv, PlanCounter, PlaceCounter, Tidy, JustLed, Release, InsertFails;
    var p, row := PlanCounter(s, time), CounterRow(s, PlanCounter(s, time), e);
    InvIsCore(s, originalEnd);
    PlannedCounter(s, time);
    NewestRowIsBacked(s);
    JustLedHasRows(s, time);
    PlaceCounterExits(s, p, e);
    UndoneHoldIsTidyIff(s, p.bidder, p.target, e.autoUndoOk, originalEnd);
    var after := PlaceCounter(s, p, e).0;
    if s.hasWallet && !e.autoHoldOk {
    } else if RowRefused(s, p, e) {
    } else if p.Raises() && s.hasWallet {
      RaisedTidyIff(s, time, row, after.holds, e.autoReleaseOk, originalEnd);
      TidyIsAboutHolds(after, s.(bids := Raised(s.bids, row), holds := after.holds));
    } else if p.Raises() {
      WalletlessIsTidy(s, originalEnd);
      NoHoldsAreTidy(after);
    } else {
      OvertakenIsTidy(s, row, after.holds, s.hasWallet && e.autoReleaseOk, p.current.hold);
      TidyIsAboutHolds(after, s.(bids := s.bids + [row], holds := after.holds));
    }
  }

  lemma NoHoldsAreTidy(s: Store)
    requires s.holds == []
    ensures Tidy(s)
  {
  }

  lemma ResolveTidyIff(s: Store, time: int, e: Env, originalEnd: int)
    requires Inv(s, originalEnd) && JustLed(s, time) && Tidy(s)
    ensures Tidy(ResolveProxies(s, time, e).0) <==> !CounterStrands(s, PlanCounter(s, time), e)
  {
    hide Inv, PlanCounter, PlaceCounter, Tidy, JustLed, CounterStrands;
    if PlanCounter(s, time).Counter? { CounterTidyIff(s, time, e, originalEnd); }
    else { NotACounterStrandsNothing(s, PlanCounter(s, time), e); }
  }

  lemma NotACounterStrandsNothing(s: Store, p: Plan, e: Env)
    requires !p.Counter?
    ensures !CounterStrands(s, p, e)
  {
  }

  /** A call leaves a store without stray holds exactly when it found none and strands none. */
  lemma CallTidyIff(s: Store, r: Request, e: Env, originalEnd: int)
    requires Inv(s, originalEnd)
    ensures Tidy(PlaceBid(s, r, e).0) <==> Tidy(s) && !Strands(s, r, e)
  {
    hide Inv, Commit, ResolveProxies, AdmitStandard, AdmitProxy, Matching, Carried, JustLed, WithMaximum,
      CounterStrands, UndoLost, Persisted, Strands;
    if !Tidy(s) {
      var h: nat :| h < |s.holds| && s.holds[h].state == Live && !Carried(s.bids, h);
      CallSpares(s, r, e, h);
    } else {
      var a := Admit(s, r, e.catalogOk);
      if a.MaxRaised? { MaximumLeavesHolds(s, r); }
      if a.Admitted? {
        CommitTidyIff(s, r, e, originalEnd);
        CommitStrandsIff(s, r, e, originalEnd);
        var (s1, result) := Commit(s, r, a.accepted, a.status, e);
        if result.Ok? {
          ResolveTidyIff(s1, r.time, e, originalEnd);
        }
      } else {
        UnadmittedStrandsNothing(s, r, e);
      }
    }
  }

  lemma UnadmittedStrandsNothing(s: Store, r: Request, e: Env)
    requires !Admit(s, r, e.catalogOk).Admitted?
    ensures !Strands(s, r, e)
  {
  }

  /** The guards say which part of an admitted call strands a hold. */
  lemma CommitStrandsIff(s: Store, r: Request, e: Env, originalEnd: int)
    requires Inv(s, originalEnd) && Admit(s, r, e.catalogOk).Admitted?
    ensures var a := Admit(s, r, e.catalogOk);
            var (s1, result) := Commit(s, r, a.accepted, a.status, e);
            if result.Err? then Strands(s, r, e) <==> UndoLost(s, r, a.accepted, e)
            else
              && Inv(s1, originalEnd) && JustLed(s1, r.time)
              && (Strands(s, r, e) <==> CounterStrands(s1, PlanCounter(s1, r.time), e))
  {
    hide Inv, Core, Commit, Admit, JustLed, WithMaximum, Persisted, PlanCounter, InsertFails, DrawsCounter,
      DrawsRefusal, CounterRaises, CounterRowFails, SwapHolds;
    InvIsCore(s, originalEnd);
    CommitsIff(s, r, e);
    CommitKeepsInv(s, r, e, originalEnd);
    if Accepts(s, r, e) {
      var a := Admit(s, r, e.catalogOk);
      var (s1, result) := Commit(s, r, a.accepted, a.status, e);
      AcceptedCallPlans(s, r, e);
      PersistedTables(s, r, result.value, s1);
      RaisedRowNeedsNoInsert(s, r, e);
    }
  }

  lemma RaisedRowNeedsNoInsert(s: Store, r: Request, e: Env)
    ensures CounterRowFails(s, r, e) ==> !CounterRaises(s, r)
  {
    hide CounterRaises;
  }

  lemma MaximumLeavesHolds(s: Store, r: Request)
    ensures WithMaximum(s, r).bids == s.bids && WithMaximum(s, r).holds == s.holds
  {
  }

  // ----- runs

  predicate StepStrands(s: Store, a: Action) { a.Bidding? && Strands(s, a.request, a.env) }

  lemma ClosingKeepsTidy(s: Store, now: int, tx: Tx, failAt: Option<nat>)
    requires Tidy(s)
    ensures Tidy(ProcessPending(s, now, tx, failAt).0) && Tidy(CloseNow(s, now, tx, failAt).0)
  {
    hide Carried, Settle, Decide, Listed;
    var s0 := Reconcile(s, now);
    if Claimable(s0.job, now) {
      var claimed := s0.(job := Some(s0.job.value.(status := Processing, lockedUntil := Some(now + CLAIM_SECS))));
      SettlementKeepsTidy(claimed, now, failAt);
      SettlementKeepsTidy(CloseListing(claimed, now), now, failAt);
    }
    SettlementKeepsTidy(CloseListing(s, now), now, failAt);
  }

  lemma SettlementKeepsTidy(s: Store, now: int, failAt: Option<nat>)
    requires Tidy(s)
    ensures Tidy(AttemptSettlement(s, now, failAt).0)
  {
    hide Carried, ReleaseAll;
    ReleaseAllReleases(s.holds, Listed(s.bids), failAt);
  }

  lemma StepTidyIff(s: Store, a: Action, originalEnd: int)
    requires Inv(s, originalEnd)
    ensures Tidy(Step(s, a)) <==> Tidy(s) && !StepStrands(s, a)
  {
    hide Inv, PlaceBid, Strands, ProcessPending, CloseNow, Carried, DeleteFor;
    if !Tidy(s) {
      var h: nat :| h < |s.holds| && s.holds[h].state == Live && !Carried(s.bids, h);
      StepKeepsStray(s, a, h);
    }
    match a
    case Bidding(r, e) => CallTidyIff(s, r, e, originalEnd);
    case Withdrawing(_) =>
    case Working(now, tx, failAt) => if Tidy(s) { ClosingKeepsTidy(s, now, tx, failAt); }
    case Closing(now, tx, failAt) => if Tidy(s) { ClosingKeepsTidy(s, now, tx, failAt); }
  }

  predicate NoneStranded(s: Store, actions: seq<Action>)
    decreases actions
  {
    actions == [] || (!StepStrands(s, actions[0]) && NoneStranded(Step(s, actions[0]), actions[1..]))
  }

  /** Over every run that keeps the store in order: no hold is stray at its end exactly when no step stranded one. */
  lemma {:induction false} RunTidyIff(s: Store, actions: seq<Action>, originalEnd: int)
    requires Inv(s, originalEnd) && Sound(s, actions)
    ensures Tidy(Run(s, actions)) <==> Tidy(s) && NoneStranded(s, actions)
    decreases actions
  {
    hide Inv, Tidy, Step, StepStrands, StepLosesRelease;
    if actions != [] {
      StepTidyIff(s, actions[0], originalEnd);
      StepKeepsInvIff(s, actions[0], originalEnd);
      RunTidyIff(Step(s, actions[0]), actions[1..], originalEnd);
    }
  }

  /** A stranded hold is never given back: after the call that stranded it, every run ends with a stray hold. */
  lemma StrandedForGood(s: Store, r: Request, e: Env, actions: seq<Action>, originalEnd: int)
    requires Inv(s, originalEnd) && Strands(s, r, e)
    ensures exists h: nat :: Stray(PlaceBid(s, r, e).0, h) && Stray(Run(PlaceBid(s, r, e).0, actions), h)
  {
    hide Inv, PlaceBid, Strands, Run, Carried;
    CallTidyIff(s, r, e, originalEnd);
    var after := PlaceBid(s, r, e).0;
    var h: nat :| h < |after.holds| && after.holds[h].state == Live && !Carried(after.bids, h);
    StrayHoldStaysLive(after, actions, h);
  }
}
