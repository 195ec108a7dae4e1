/** What is paid, and how long a bid stands, over every run, whatever its calls meet. */
module Payments {
  import opened Wrappers
  import opened AuctionSession
  import opened BidTable
  import opened ProxyTable
  import opened HoldLedger
  import opened BidValidation
  import opened AuctionStore
  import opened StoreInvariant
  import opened CounterPlan
  import opened CallGuards
  import opened CounterInvariant
  import opened AuctionClosure
  import opened AuctionRuns
  import opened BidHistory
  import opened AuctionGuarantees
  import opened LostReleases

  /** Every bid has at least 119 seconds, and the auction its original time. */
  predicate Timely(s: Store, originalEnd: int) {
    && originalEnd <= s.listing.endTime
    && forall x <- s.bids :: x.time + ANTI_SNIPING_EXTENSION_SECS - 1 <= s.listing.endTime
  }

  predicate Finished(s: Store) { s.job.Some? && s.job.value.status == Done }

  /** Rows are backed, and the winner's hold is paid out by the finished settlement and by nothing else. */
  predicate Paid(s: Store) {
    Backed(s.hasWallet, s.bids, s.holds) && if Finished(s) then PaidOut(s) else NoneConverted(s.holds)
  }

  predicate Books(s: Store, originalEnd: int) { Paid(s) && Timely(s, originalEnd) }

  // ----- what a call may do to the ledger

  /** Holds keep owner and amount, and nothing is newly paid out. */
  predicate Extends(holds: seq<Hold>, holds': seq<Hold>) {
    && |holds| <= |holds'|
    && (forall i | 0 <= i < |holds| ::
          && holds'[i].user == holds[i].user && holds'[i].amount == holds[i].amount
          && (holds'[i].state == Converted <==> holds[i].state == Converted))
    && (forall i | |holds| <= i < |holds'| :: holds'[i].state != Converted)
  }

  lemma ExtendedHoldsBack(hasWallet: bool, rows: seq<BidRow>, holds: seq<Hold>, holds': seq<Hold>)
    requires Backed(hasWallet, rows, holds) && Extends(holds, holds') && (!hasWallet ==> holds' == holds)
    ensures Backed(hasWallet, rows, holds') && (NoneConverted(holds) ==> NoneConverted(holds'))
  {
  }

  /** A new hold backs a new row, and a new row in place of the newest one. */
  lemma NewHoldBacks(hasWallet: bool, rows: seq<BidRow>, holds: seq<Hold>, row: BidRow)
    requires Backed(hasWallet, rows, holds) && row.hold == if hasWallet then Some(|holds|) else None
    ensures var holds' := if hasWallet then holds + [Hold(row.bidder, Rupiah(row.amount), Live)] else holds;
            && Backed(hasWallet, rows + [row], holds')
            && (rows != [] ==> Backed(hasWallet, Raised(rows, row), holds'))
            && (NoneConverted(holds) ==> NoneConverted(holds'))
  {
    forall x <- rows + [row] ensures x in rows || x == row {}
    if rows != [] { forall x <- Raised(rows, row) ensures x in rows || x == row {} }
  }

  lemma ReleaseExtends(holds: seq<Hold>, h: Option<nat>)
    ensures Extends(holds, Release(holds, h))
  {
  }

  lemma FailedCommitExtends(s: Store, r: Request, accepted: Accepted, status: Status, e: Env)
    requires Commit(s, r, accepted, status, e).1.Err?
    ensures var holds := Commit(s, r, accepted, status, e).0.holds;
            Extends(s.holds, holds) && (!s.hasWallet ==> holds == s.holds)
  {
    hide Winner, HasId, UpsertMax, Lead, Rupiah;
  }

  lemma ClearedExtends(s: Store, r: Request)
    ensures Extends(s.holds, Cleared(s, r).holds) && (!s.hasWallet ==> Cleared(s, r).holds == s.holds)
  {
    hide UpsertMax;
  }

  lemma CommitKeepsBooks(s: Store, r: Request, e: Env, originalEnd: int)
    requires Core(s) && Books(s, originalEnd) && !Finished(s) && Waiting(s.job) && Admit(s, r, e.catalogOk).Admitted?
    ensures var a := Admit(s, r, e.catalogOk);
            var s1 := Commit(s, r, a.accepted, a.status, e).0;
            Books(s1, originalEnd) && Waiting(s1.job)
  {
    hide Core, Commit, Admit, Cleared, WithMaximum, Lead, Backed, NoneConverted, Extends, PaidOut, Minimum, Tops, HasId,
      CanLead;
    var a := Admit(s, r, e.catalogOk);
    var (s1, result) := Commit(s, r, a.accepted, a.status, e);
    AdmittedBidCanLead(s, r, e.catalogOk);
    CommitKeepsCore(s, r, e);
    LeadStages(s, r, a.accepted, a.status, e);
    if result.Err? {
      FailedCommitExtends(s, r, a.accepted, a.status, e);
      ExtendedHoldsBack(s.hasWallet, s.bids, s.holds, s1.holds);
    } else {
      CoreWinner(s);
      ReadCanLead(s, r.bidder, a.accepted.newHighest.amount, r.time);
      CommitLeads(s, r, a.accepted, a.status, e);
      ClearedTables(s, r);
      ClearedExtends(s, r);
      var cleared := Cleared(s, r);
      ExtendedHoldsBack(s.hasWallet, s.bids, s.holds, cleared.holds);
      NewHoldBacks(s.hasWallet, s.bids, cleared.holds, result.value);
      MinimumTops(s, result.value.amount);
      var s3 := HoldFunds(cleared, r.bidder, a.accepted.newHighest.amount).0;
      LeadWrites(s3, result.value, a.accepted.newEndAt, a.status);
    }
  }

  lemma ReadCanLead(s: Store, bidder: string, amount: int, time: int)
    requires CanLead(s, bidder, amount, time)
    ensures (s.bids != [] ==> Last(s.bids).bidder != bidder) && Minimum(s) <= amount
  {
  }

  lemma UndoneExtends(s: Store, user: string, cents: int, ok: bool)
    ensures var (held, hold) := HoldFunds(s, user, cents);
            var holds := UndoHold(held, hold, ok).holds;
            Extends(s.holds, holds) && (!s.hasWallet ==> holds == s.holds)
  {
    hide Rupiah;
  }

  /** The ledger and the rows once the counter's row is written, the displaced hold released or not. */
  lemma CounterRowIsBooked(s: Store, p: Plan, e: Env)
    requires p.Counter? && s.bids != [] && p.current == Last(s.bids) && Backed(s.hasWallet, s.bids, s.holds)
    requires p.Raises() ==> p.bidder == Last(s.bids).bidder
    ensures var rows, holds := CounterRows(s, p, e), CounterHolds(s, p);
            && Backed(s.hasWallet, rows, holds) && (!s.hasWallet ==> holds == s.holds)
            && (s.hasWallet ==> Backed(true, rows, Release(holds, p.current.hold)))
            && (NoneConverted(s.holds) ==> NoneConverted(holds) && NoneConverted(Release(holds, p.current.hold)))
            && forall x <- rows :: x in s.bids || x.time == p.time
  {
    hide Backed, NoneConverted, Extends, Rupiah;
    var row := CounterRow(s, p, e);
    NewHoldBacks(s.hasWallet, s.bids, s.holds, row);
    ReleaseExtends(CounterHolds(s, p), p.current.hold);
    if s.hasWallet {
      ExtendedHoldsBack(true, CounterRows(s, p, e), CounterHolds(s, p), Release(CounterHolds(s, p), p.current.hold));
    }
  }

  lemma CounterKeepsBooks(s: Store, time: int, e: Env, originalEnd: int)
    requires Current(s) && JustLed(s, time) && Books(s, originalEnd) && !Finished(s) && Waiting(s.job)
    ensures var s' := ResolveProxies(s, time, e).0; Books(s', originalEnd) && !Finished(s')
  {
    hide Core, PlanCounter, PlaceCounter, RowRefused, Backed, NoneConverted, PaidOut, Extends, Release, CounterRows,
      CounterHolds, UndoHold;
    var p := PlanCounter(s, time);
    CounterKeepsStage(s, time, e);
    if p.Counter? {
      PlannedCounter(s, time);
      NewestRowIsBacked(s);
      PlaceCounterExits(s, p, e);
      var held := HoldFunds(s, p.bidder, p.target);
      UndoneExtends(s, p.bidder, p.target, e.autoUndoOk);
      ExtendedHoldsBack(s.hasWallet, s.bids, s.holds, UndoHold(held.0, held.1, e.autoUndoOk).holds);
      UndoneTables(s, p.bidder, p.target, e.autoUndoOk);
      CounterRowIsBooked(s, p, e);
    }
  }

  lemma UndoneTables(s: Store, user: string, cents: int, ok: bool)
    ensures var (held, hold) := HoldFunds(s, user, cents);
            UndoHold(held, hold, ok) == s.(holds := UndoHold(held, hold, ok).holds)
  {
  }

  lemma CallKeepsBooks(s: Store, r: Request, e: Env, originalEnd: int)
    requires Core(s) && Staged(s) && Books(s, originalEnd)
    ensures Books(PlaceBid(s, r, e).0, originalEnd)
  {
    hide Core, Current, Commit, ResolveProxies, AdmitStandard, AdmitProxy, Matching, Persisted, WithMaximum, JustLed,
      Backed, NoneConverted, PaidOut;
    if Open(s.listing.status) {
      var a := Admit(s, r, e.catalogOk);
      if a.MaxRaised? { MaximumLeavesAccounts(s, r); }
      if a.Admitted? {
        CommitKeepsBooks(s, r, e, originalEnd);
        CommitKeepsCore(s, r, e);
        var (s1, result) := Commit(s, r, a.accepted, a.status, e);
        if result.Ok? {
          PersistedIsJustLed(s, r, result.value, s1);
          CounterKeepsBooks(s1, r.time, e, originalEnd);
        }
      }
    } else {
      CoreStatus(s);
      ClosedTakesNoBids(s, r, e);
    }
  }

  lemma MaximumLeavesAccounts(s: Store, r: Request)
    ensures WithMaximum(s, r) == s.(proxies := WithMaximum(s, r).proxies)
  {
  }

  // ----- settling

  lemma SettlementKeepsBooks(s: Store, now: int, failAt: Option<nat>, originalEnd: int)
    requires Core(s) && Books(s, originalEnd) && !Finished(s) && s.listing.status in {Won, Unsold} && s.job.Some?
    ensures Books(AttemptSettlement(s, now, failAt).0, originalEnd)
  {
    hide Core, Listed, ReleaseAll;
    ListedNewest(s);
    ReleaseAllReleases(s.holds, Listed(s.bids), failAt);
    if s.hasWallet && s.listing.status == Won { WonHasRows(s); }
  }

  lemma WonHasRows(s: Store)
    requires Core(s) && s.listing.status == Won
    ensures s.bids != []
  {
  }

  lemma UnfinishedIsBooked(s: Store, s': Store, originalEnd: int)
    requires Books(s, originalEnd) && !Finished(s) && !Finished(s')
    requires s'.bids == s.bids && s'.holds == s.holds && s'.hasWallet == s.hasWallet
             && s'.listing.endTime == s.listing.endTime
    ensures Books(s', originalEnd)
  {
  }

  lemma ClosedBooks(s: Store, job: Option<Job>, now: int, originalEnd: int)
    requires Core(s) && Books(s, originalEnd) && !Finished(s) && Open(s.listing.status)
    ensures var closed := CloseListing(s.(job := job), now);
            && Books(closed, originalEnd) && !Finished(closed)
            && Core(closed) && closed.listing.status in {Won, Unsold} && closed.job.Some?
  {
    hide Core, Listed, First, Backed, NoneConverted;
    ClosedListingIsCore(s, job, now);
    UnfinishedIsBooked(s, CloseListing(s.(job := job), now), originalEnd);
  }

  lemma WorkerKeepsBooks(s: Store, now: int, tx: Tx, failAt: Option<nat>, originalEnd: int)
    requires Core(s) && Staged(s) && Books(s, originalEnd)
    ensures Books(ProcessPending(s, now, tx, failAt).0, originalEnd)
  {
    hide Core, AttemptSettlement, CloseListing, Books, IsLive;
    CoreStatus(s);
    var s0 := Reconcile(s, now);
    if s.job.None? {
      UnfinishedIsBooked(s, s0, originalEnd);
    }
    if Claimable(s0.job, now) {
      var claimed := s0.(job := Some(s0.job.value.(status := Processing, lockedUntil := Some(now + CLAIM_SECS))));
      UnfinishedIsBooked(s, claimed, originalEnd);
      if !Open(s.listing.status) {
        CoreIgnoresMoney(s, s.holds, claimed.job, s.outbox);
        assert claimed == s.(holds := s.holds, job := claimed.job, outbox := s.outbox);
        SettlementKeepsBooks(claimed, now, failAt, originalEnd);
      } else {
        assert claimed == s.(job := claimed.job);
        ClosedBooks(s, claimed.job, now, originalEnd);
        SettlementKeepsBooks(CloseListing(claimed, now), now, failAt, originalEnd);
        if !tx.Breaks? && (now < s.listing.endTime || tx.Fails?) {
          UnfinishedIsBooked(s, ProcessPending(s, now, tx, failAt).0, originalEnd);
        }
      }
    }
  }

  lemma StepKeepsBooks(s: Store, a: Action, originalEnd: int)
    requires Core(s) && Staged(s) && Books(s, originalEnd)
    ensures Books(Step(s, a), originalEnd)
  {
    hide Core, PlaceBid, ProcessPending, AttemptSettlement, CloseListing, Books, DeleteFor;
    match a
    case Bidding(r, e) => CallKeepsBooks(s, r, e, originalEnd);
    case Withdrawing(bidder) => BooksIgnoreMaxima(s, DeleteProxy(s, bidder), originalEnd);
    case Working(now, tx, failAt) => WorkerKeepsBooks(s, now, tx, failAt, originalEnd);
    case Closing(now, tx, failAt) =>
      CoreStatus(s);
      if Open(s.listing.status) {
        assert s.(job := s.job) == s;
        ClosedBooks(s, s.job, now, originalEnd);
        SettlementKeepsBooks(CloseListing(s, now), now, failAt, originalEnd);
      }
  }

  lemma BooksIgnoreMaxima(s: Store, s': Store, originalEnd: int)
    requires Books(s, originalEnd) && s' == s.(proxies := s'.proxies)
    ensures Books(s', originalEnd)
  {
  }

  lemma {:induction false} RunKeepsBooks(s: Store, actions: seq<Action>, originalEnd: int)
    requires Core(s) && Staged(s) && Books(s, originalEnd)
    ensures Staged(Run(s, actions)) && Books(Run(s, actions), originalEnd)
    decreases actions
  {
    hide Core, Staged, Books, Step;
    if actions != [] {
      StepLeaves(s, actions[0], 0);
      StepKeepsCore(s, actions[0]);
      StepKeepsBooks(s, actions[0], originalEnd);
      RunKeepsBooks(Step(s, actions[0]), actions[1..], originalEnd);
    }
  }

  // ----- what is promised over every run

  lemma CreatedIsBooked(c: CreateCommand, now: int, hasWallet: bool)
    requires Create(c, now, hasWallet).Some?
    ensures Books(Create(c, now, hasWallet).value, c.endTime)
  {
  }

  lemma ReachableIsBooked(c: CreateCommand, now: int, hasWallet: bool, actions: seq<Action>, s: Store)
    requires Reachable(c, now, hasWallet, actions, s)
    ensures Books(s, c.endTime) && Staged(s)
  {
    hide Core, Staged, Books, Run, Create;
    CreatedIsCore(c, now, hasWallet);
    CreatedIsStaged(c, now, hasWallet);
    CreatedIsBooked(c, now, hasWallet);
    RunKeepsBooks(Create(c, now, hasWallet).value, actions, c.endTime);
  }

  /**
   * Over every run, whatever its calls meet: only a finished settlement pays out, only of a won auction, and only the
   * winning row's own hold; that hold is then the winning bidder's, for the winning amount, which meets the reserve. A
   * finished settlement of an unsold auction has released the hold of every row.
   */
  lemma OnlyTheWinnerPays(c: CreateCommand, now: int, hasWallet: bool, actions: seq<Action>, s: Store)
    requires Reachable(c, now, hasWallet, actions, s)
    ensures forall h | 0 <= h < |s.holds| ::
              s.holds[h].state == Converted <==>
                Finished(s) && s.listing.status == Won && Winner(s.bids).Some? && Winner(s.bids).value.hold == Some(h)
    ensures hasWallet && Finished(s) && s.listing.status == Won ==>
              && Winner(s.bids).Some?
              && var winner := Winner(s.bids).value;
                 && winner.hold.Some? && winner.hold.value < |s.holds|
                 && s.holds[winner.hold.value] == Hold(winner.bidder, Rupiah(winner.amount), Converted)
                 && c.reserve <= winner.amount
    ensures Finished(s) ==> s.listing.status in {Won, Unsold}
    ensures hasWallet && Finished(s) && s.listing.status == Unsold ==> forall x <- s.bids :: !IsLive(s.holds, x.hold)
  {
    hide Run, Create, ProxiesOk, RowsOk, CacheNotAbove, Winner, Timely;
    CreatedTerms(c, now, hasWallet);
    ReachableIsCore(c, now, hasWallet, actions, s);
    ReachableIsBooked(c, now, hasWallet, actions, s);
    CoreWinner(s);
    if s.bids != [] { assert Last(s.bids) in s.bids; }
  }

  /** Over every run: the auction runs to its original end at least, and whatever closes it does so at least 119 seconds
      after every bid. */
  lemma ClosesAfterEveryBid(c: CreateCommand, now: int, hasWallet: bool, actions: seq<Action>, s: Store, a: Action)
    requires Reachable(c, now, hasWallet, actions, s)
    ensures c.endTime <= s.listing.endTime
    ensures forall x <- s.bids :: x.time + ANTI_SNIPING_EXTENSION_SECS - 1 <= s.listing.endTime
    ensures Open(s.listing.status) && !Open(Step(s, a).listing.status) ==>
              && (a.Working? || a.Closing?) && c.endTime <= a.now
              && forall x <- s.bids :: x.time + ANTI_SNIPING_EXTENSION_SECS - 1 <= a.now
  {
    hide Run, Create, Core, Paid, Staged, PlaceBid, Settle, CloseListing, Reachable;
    ReachableIsCore(c, now, hasWallet, actions, s);
    ReachableIsBooked(c, now, hasWallet, actions, s);
    CoreStatus(s);
    if Open(s.listing.status) && a.Bidding? { BiddingDoesNotClose(s, a.request, a.env); }
  }
}
