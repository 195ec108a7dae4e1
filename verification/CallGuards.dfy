/** How a bidding call will go, said from the store before it, the request, and the answers it will meet. */
module CallGuards {
  import opened Wrappers
  import opened AuctionSession
  import opened BidTable
  import opened ProxyTable
  import opened HoldLedger
  import opened BidValidation
  import opened AuctionStore
  import opened StoreInvariant
  import opened CounterPlan

  /** The caller's own money moves: the displaced hold is released and the new one granted. */
  predicate HoldGranted(s: Store, e: Env) {
    s.hasWallet ==> e.holdOk && (s.bids != [] ==> e.releaseOk)
  }

  /** The call is admitted, its money moves, and its row can be inserted. */
  predicate Accepts(s: Store, r: Request, e: Env) {
    Admit(s, r, e.catalogOk).Admitted? && HoldGranted(s, e) && !InsertFails(s, e.bidId, e.insertOk)
  }

  /** The amount an admitted call leads with. */
  function Price(s: Store, r: Request): int { if r.Standard? then r.amount else Minimum(s) }

  /** Once the call's bid leads, a counter comes. */
  predicate DrawsCounter(s: Store, r: Request) {
    CounterComes(WithMaximum(s, r).proxies, r.bidder, Price(s, r), s.listing.terms.increment)
  }

  /** Once the call's bid leads, a counter is tried and refused as too low. */
  predicate DrawsRefusal(s: Store, r: Request) {
    CounterRefused(WithMaximum(s, r).proxies, r.bidder, Price(s, r), s.listing.terms.increment)
  }

  /** The counter raises the caller's own row. */
  predicate CounterRaises(s: Store, r: Request) {
    WithMaximum(s, r).proxies != [] && TopLeads(WithMaximum(s, r).proxies, r.bidder)
  }

  /** The counter needs a row of its own and cannot have it. */
  predicate CounterRowFails(s: Store, r: Request, e: Env) {
    !CounterRaises(s, r) && (!e.autoInsertOk || e.autoBidId == e.bidId || HasId(s.bids, e.autoBidId))
  }

  /** The counter's row is written and the hold it displaces is not released. */
  predicate LosesRelease(s: Store, r: Request, e: Env) {
    && Accepts(s, r, e) && DrawsCounter(s, r)
    && s.hasWallet && e.autoHoldOk && !CounterRowFails(s, r, e) && !e.autoReleaseOk
  }

  /** A hold is left live that no row carries: the caller's or the counter's, taken for a refused row and not taken
      back, or the one a raised row had, not released. */
  predicate Strands(s: Store, r: Request, e: Env) {
    && Admit(s, r, e.catalogOk).Admitted? && s.hasWallet && HoldGranted(s, e)
    && if InsertFails(s, e.bidId, e.insertOk) then !e.undoOk
       else
         && DrawsCounter(s, r) && e.autoHoldOk
         && if CounterRowFails(s, r, e) then !e.autoUndoOk else CounterRaises(s, r) && !e.autoReleaseOk
  }

  /** The call's bid is persisted and its counter fails. */
  predicate FailsOnCounter(s: Store, r: Request, e: Env) {
    && Accepts(s, r, e)
    && (DrawsRefusal(s, r)
        || (DrawsCounter(s, r)
            && ((s.hasWallet && (!e.autoHoldOk || !e.autoReleaseOk)) || CounterRowFails(s, r, e))))
  }

  // ----- the guards are right

  /** An admitted call persists its bid exactly when it is granted its hold and its row. */
  lemma CommitsIff(s: Store, r: Request, e: Env)
    requires Core(s) && Admit(s, r, e.catalogOk).Admitted?
    ensures var a := Admit(s, r, e.catalogOk);
            && (Commit(s, r, a.accepted, a.status, e).1.Ok? <==> Accepts(s, r, e))
            && (SwapHolds(WithMaximum(s, r), Winner(s.bids), r.bidder, a.accepted.newHighest.amount, e).1.Ok?
                <==> HoldGranted(s, e))
            && a.accepted.newHighest.amount == Price(s, r)
  {
    hide Core, Admit, Winner, HasId, UpsertMax, Release, Lead, Minimum;
    AdmittedBidCanLead(s, r, e.catalogOk);
    CoreWinner(s);
    LeaderIsBacked(s);
  }

  lemma LeaderIsBacked(s: Store)
    requires Core(s)
    ensures s.hasWallet && s.bids != [] ==> Last(s.bids).hold.Some?
  {
    if s.bids != [] { assert Last(s.bids) in s.bids; }
  }

  /** The plan an accepted call meets is the one its guards foretell. */
  lemma AcceptedCallPlans(s: Store, r: Request, e: Env)
    requires Core(s) && Accepts(s, r, e)
    ensures Admit(s, r, e.catalogOk).Admitted?
    ensures var a := Admit(s, r, e.catalogOk);
            var (s1, result) := Commit(s, r, a.accepted, a.status, e);
            var p := PlanCounter(s1, r.time);
            && result.Ok? && Current(s1) && JustLed(s1, r.time) && Persisted(s, r, result.value, s1)
            && (p.Counter? <==> DrawsCounter(s, r))
            && (p.Blocked? <==> DrawsRefusal(s, r))
            && (p.Counter? ==> (p.Raises() <==> CounterRaises(s, r)))
            && (p.Counter? ==>
                  (CounterRowFails(s, r, e) <==> !p.Raises() && InsertFails(s1, e.autoBidId, e.autoInsertOk)))
            && result.value.amount == Price(s, r) && result.value.id == e.bidId
  {
    hide Core, Admit, Commit, PlanCounter, WithMaximum, CounterComes, CounterRefused, JustLed, Price, HasId;
    var a := Admit(s, r, e.catalogOk);
    CommitsIff(s, r, e);
    CommitKeepsCore(s, r, e);
    CommittedRow(s, r, a.accepted, a.status, e);
    var (s1, result) := Commit(s, r, a.accepted, a.status, e);
    PersistedIsJustLed(s, r, result.value, s1);
    CounterPlanIff(s1, r.time);
    IdsAfter(s.bids, result.value, e.autoBidId);
  }

  lemma CommittedRow(s: Store, r: Request, accepted: Accepted, status: Status, e: Env)
    ensures var (s1, result) := Commit(s, r, accepted, status, e);
            result.Ok? ==> result.value.amount == accepted.newHighest.amount && result.value.id == e.bidId
                           && result.value.bidder == r.bidder && s1.bids == s.bids + [result.value]
  {
    hide Winner, HasId, Release, UpsertMax;
  }

  lemma IdsAfter(rows: seq<BidRow>, row: BidRow, id: string)
    ensures HasId(rows + [row], id) <==> HasId(rows, id) || row.id == id
  {
    assert (rows + [row])[|rows|] == row;
    if HasId(rows, id) {
      var x :| x in rows && x.id == id;
      assert x in rows + [row];
    }
  }
}
