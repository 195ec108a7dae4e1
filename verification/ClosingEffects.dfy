/** What creation, a worker pass and a manual close do and answer, said from the columns before them. */
module ClosingEffects {
  import opened Wrappers
  import opened AuctionSession
  import opened BidTable
  import opened BidCursor
  import opened ProxyTable
  import opened HoldLedger
  import opened BidValidation
  import opened AuctionStore
  import opened StoreInvariant
  import opened Admission
  import opened CallGuards
  import opened CallEffects
  import opened CounterInvariant
  import opened AuctionClosure
  import opened AuctionRuns
  import opened BidHistory
  import opened AuctionGuarantees
  import opened LostReleases

  // ----- creation

  /** An auction is created exactly from named parties, a positive price and increment, a reserve not below the price,
      and times that leave it an end in the future and a start at most two minutes past; it starts empty, scheduled for
      its end, told of, and open exactly when its start has come. */
  lemma CreatedIff(c: CreateCommand, now: int, hasWallet: bool)
    ensures Create(c, now, hasWallet).Some? <==>
              && !Blank(c.listingId) && !Blank(c.seller) && !Blank(c.auctionType)
              && 1 <= c.startingPrice <= c.reserve && 1 <= c.increment
              && c.startTime < c.endTime && now < c.endTime && now - c.startTime <= 120
    ensures Create(c, now, hasWallet).Some? ==>
              var s := Create(c, now, hasWallet).value;
              && s.listing.terms == Terms(c.seller, c.startingPrice, c.increment, c.reserve, c.startTime)
              && s.listing.endTime == c.endTime && s.listing.cachedHighest.None?
              && s.listing.status == (if c.startTime <= now then Active else Draft)
              && s.bids == [] && s.proxies == [] && s.holds == [] && s.hasWallet == hasWallet
              && s.job == Some(Job(c.endTime, Pending, 0, None)) && s.outbox == [AuctionCreated(c.endTime)]
  {
  }

  /** From a fresh auction, with every answer yes, the first bid is persisted exactly if the auction was created at or
      after its start and the bid is in time, not the seller's and not below the starting price. */
  lemma FirstBidIsPersistedIff(c: CreateCommand, now: int, hasWallet: bool, bidder: string, amount: int, time: int,
                               e: Env)
    requires START_TIME_CLOCK_SKEW_SECS <= now && Create(c, now, hasWallet).Some?
    requires e.catalogOk && e.insertOk && (hasWallet ==> e.holdOk)
    ensures Accepts(Create(c, now, hasWallet).value, Standard(bidder, amount, time), e) <==>
              && c.startTime <= now && c.startTime <= time < c.endTime
              && bidder != c.seller && c.startingPrice <= amount
  {
    hide Accepts;
    CreatedIsCore(c, now, hasWallet);
    AcceptsIff(Create(c, now, hasWallet).value, Standard(bidder, amount, time), e);
  }

  // ----- the listing once closed

  /** Rows and maxima as they were; won exactly if the newest row meets the reserve; the price cached; the end told. */
  predicate ClosedFrom(s: Store, s': Store) {
    var won := s.bids != [] && s.listing.terms.reserve <= Last(s.bids).amount;
    && s'.bids == s.bids && s'.proxies == s.proxies && s'.hasWallet == s.hasWallet
    && s'.listing == s.listing.(status := if won then Won else Unsold,
                                cachedHighest := if s.bids == [] then None else Some(Last(s.bids).amount))
    && s'.outbox == s.outbox + [Event.AuctionEnded(if won then Won else Unsold,
                                                   if won then Some(Last(s.bids).bidder) else None,
                                                   if won then Some(Last(s.bids).amount) else None)]
  }

  lemma CloseListingIs(s: Store, job: Option<Job>, now: int)
    requires Core(s) && Open(s.listing.status)
    ensures var closed := CloseListing(s.(job := job), now);
            && ClosedFrom(s, closed) && closed.holds == s.holds
            && closed.job == Some(Job(now, Settling, if job.Some? then job.value.attempts else 0, None))
  {
    hide RowsOk, ProxiesOk, Listed;
    ListedNewest(s);
  }

  // ----- a settlement attempt

  /** The wallet is asked nothing that it refuses: nothing is due, or the hold due is live, and no request fails. */
  predicate Obliging(s: Store, failAt: Option<nat>) {
    !s.hasWallet || (failAt.None? && (s.listing.status == Won ==> s.bids != [] && IsLive(s.holds, Last(s.bids).hold)))
  }

  /** The job after an attempt: done, or due again in thirty seconds and one attempt richer. */
  predicate Attempted(job: Job, job': Option<Job>, now: int, ok: bool) {
    job' == Some(if ok then Job(job.dueAt, Done, job.attempts, None)
                 else Job(now + 30, Settling, job.attempts + 1, None))
  }

  lemma AttemptIs(s: Store, now: int, failAt: Option<nat>)
    requires Core(s) && s.job.Some? && s.listing.status in {Won, Unsold}
    ensures var (s', reply) := AttemptSettlement(s, now, failAt);
            && s' == s.(holds := s'.holds, job := s'.job)
            && (reply == if s'.job.value.status == Done then CloseReply.Finished(s.listing) else SettlementFailed)
            && Attempted(s.job.value, s'.job, now, reply.Finished?)
            && (Obliging(s, failAt) ==> reply.Finished?)
            && (failAt.None? ==> (reply.Finished? <==> Obliging(s, failAt)))
  {
    hide RowsOk, ProxiesOk, Listed, ReleaseAll;
    ListedNewest(s);
    ReleaseAllSucceeds(s.holds, Listed(s.bids));
    if s.bids != [] { assert Last(s.bids) in s.bids; }
  }

  /** The rows the wallet has answered for when the release loop stops. */
  function Answered(rows: seq<BidRow>, failAt: Option<nat>): seq<BidRow> {
    if failAt.Some? && failAt.value < |rows| && rows[failAt.value].hold.Some? then rows[..failAt.value] else rows
  }

  /** The live holds of these rows are released, and nothing else has changed. */
  predicate GivenBack(holds: seq<Hold>, holds': seq<Hold>, rows: seq<BidRow>) {
    && |holds'| == |holds|
    && forall i | 0 <= i < |holds| ::
         holds'[i] == if holds[i].state == Live && exists x <- rows :: x.hold == Some(i)
                      then holds[i].(state := Released) else holds[i]
  }

  /** The loop gives back the live holds of exactly the rows before the request that fails, and no other. */
  lemma {:induction false} ReleasesAre(holds: seq<Hold>, rows: seq<BidRow>, failAt: Option<nat>)
    ensures var (holds', ok) := ReleaseAll(holds, rows, failAt);
            (ok <==> Answered(rows, failAt) == rows) && GivenBack(holds, holds', Answered(rows, failAt))
    decreases rows
  {
    hide Release, GivenBack;
    if rows == [] || (failAt == Some(0) && rows[0].hold.Some?) {
      NothingGivenBack(holds);
      assert rows != [] ==> Answered(rows, failAt) == [];
    } else {
      var later := if failAt.Some? && 0 < failAt.value then Some(failAt.value - 1) else None;
      var next := if rows[0].hold.None? then holds else Release(holds, rows[0].hold);
      ReleasesAre(next, rows[1..], later);
      assert Answered(rows, failAt) == [rows[0]] + Answered(rows[1..], later);
      GivenBackCons(holds, ReleaseAll(holds, rows, failAt).0, rows[0], Answered(rows[1..], later));
    }
  }

  lemma NothingGivenBack(holds: seq<Hold>)
    ensures GivenBack(holds, holds, [])
  {
  }

  lemma GivenBackCons(holds: seq<Hold>, holds': seq<Hold>, row: BidRow, rows: seq<BidRow>)
    requires GivenBack(if row.hold.None? then holds else Release(holds, row.hold), holds', rows)
    ensures GivenBack(holds, holds', [row] + rows)
  {
    var all := [row] + rows;
    assert all[0] == row && forall x <- rows :: x in all;
  }

  /** The ledger after an attempt: of a won auction the winner's hold paid out or nothing changed, of an unsold one the
      holds of the rows the wallet answered for given back. */
  lemma AttemptHolds(s: Store, now: int, failAt: Option<nat>)
    requires Core(s) && s.hasWallet && s.listing.status in {Won, Unsold}
    ensures var (s', reply) := AttemptSettlement(s, now, failAt);
            && |s'.holds| == |s.holds|
            && (s.listing.status == Won ==>
                  && s.bids != [] && Last(s.bids).hold.Some?
                  && forall i | 0 <= i < |s.holds| ::
                       s'.holds[i] == if reply.Finished? && Last(s.bids).hold == Some(i)
                                      then s.holds[i].(state := Converted) else s.holds[i])
            && (s.listing.status == Unsold ==>
                  && (reply.Finished? <==> Answered(Listed(s.bids), failAt) == Listed(s.bids))
                  && GivenBack(s.holds, s'.holds, Answered(Listed(s.bids), failAt)))
  {
    hide RowsOk, ProxiesOk, Listed, ReleaseAll, Answered;
    ListedNewest(s);
    ReleasesAre(s.holds, Listed(s.bids), failAt);
    if s.bids != [] { assert Last(s.bids) in s.bids; }
  }

  // ----- the manual close

  /** A manual close whose transaction goes through closes every ended auction that is not closed yet, and settles at
      once; before the end, after a close, and when the transaction fails it changes nothing and says so. */
  lemma ManualCloseIs(s: Store, now: int, tx: Tx, failAt: Option<nat>)
    requires Core(s)
    ensures var (s', reply) := CloseNow(s, now, tx, failAt);
            if tx.Commits? && s.listing.endTime <= now && Open(s.listing.status) then
              && ClosedFrom(s, s')
              && Attempted(Job(now, Settling, if s.job.Some? then s.job.value.attempts else 0, None), s'.job, now,
                           reply.Finished?)
              && (reply.Finished? ==> reply.listing == s'.listing) && (reply.Finished? || reply.SettlementFailed?)
              && (failAt.None? ==> (reply.Finished? <==> Obliging(s.(listing := s'.listing), None)))
            else
              && s' == s
              && reply == if tx.Breaks? then ClosureFailed else if now < s.listing.endTime then NotEnded
                          else if !Open(s.listing.status) then CloseReply.Finished(s.listing) else ClosureFailed
  {
    hide Core, AttemptSettlement, CloseListing;
    CoreStatus(s);
    if Open(s.listing.status) {
      assert s.(job := s.job) == s;
      CloseListingIs(s, s.job, now);
      ClosedListingIsCore(s, s.job, now);
      AttemptIs(CloseListing(s, now), now, failAt);
    }
  }

  // ----- the worker

  /** There is a job for the worker, created for the purpose if an ended auction has none. */
  predicate HasWork(s: Store, now: int) {
    if s.job.None? then s.listing.endTime <= now && Open(s.listing.status)
    else
      && s.job.value.status in {Pending, Settling} && s.job.value.dueAt <= now
      && (s.job.value.lockedUntil.None? || s.job.value.lockedUntil.value <= now)
  }

  function WorkersJob(s: Store): Job { if s.job.Some? then s.job.value else Job(s.listing.endTime, Pending, 0, None) }

  /**
   * A worker pass. Without work it does nothing; a broken transaction leaves the job processing. An open auction is
   * closed and settled at or after its end and scheduled anew before it, or put off when a closing statement fails; a
   * closed one is settled again.
   */
  lemma WorkerPassIs(s: Store, now: int, tx: Tx, failAt: Option<nat>)
    requires Core(s) && Staged(s)
    ensures var (s', reply) := ProcessPending(s, now, tx, failAt);
            var job, due := WorkersJob(s), s.listing.endTime <= now;
            if !HasWork(s, now) then s' == s && reply.Nothing?
            else if tx.Breaks? then
              s' == s.(job := Some(job.(status := Processing, lockedUntil := Some(now + 60)))) && reply.ClosureFailed?
            else if !Open(s.listing.status) then
              && s' == s.(holds := s'.holds, job := s'.job)
              && Attempted(job, s'.job, now, reply.Finished?)
              && reply == (if reply.Finished? then CloseReply.Finished(s.listing) else SettlementFailed)
              && (failAt.None? ==> (reply.Finished? <==> Obliging(s, None)))
            else if !due then
              s' == s.(job := Some(Job(s.listing.endTime, Pending, job.attempts, None))) && reply.Nothing?
            else if tx.Fails? then
              s' == s.(job := Some(Job(now + 30, Pending, job.attempts + 1, None))) && reply.ClosureFailed?
            else
              && ClosedFrom(s, s')
              && Attempted(Job(now, Settling, job.attempts, None), s'.job, now, reply.Finished?)
              && reply == (if reply.Finished? then CloseReply.Finished(s'.listing) else SettlementFailed)
              && (failAt.None? ==> (reply.Finished? <==> Obliging(s.(listing := s'.listing), None)))
  {
    hide Core, AttemptSettlement, CloseListing, Staged, IsLive, Emit;
    CoreStatus(s);
    StagedJob(s);
    if HasWork(s, now) {
      var claimed := s.(job := Some(WorkersJob(s).(status := Processing, lockedUntil := Some(now + 60))));
      if Open(s.listing.status) {
        hide Obliging;
        CloseListingIs(s, claimed.job, now);
        ClosedListingIsCore(s, claimed.job, now);
        AttemptIs(CloseListing(claimed, now), now, failAt);
        ObligingIsAboutMoney(s, CloseListing(claimed, now));
      } else {
        CoreIgnoresMoney(s, s.holds, claimed.job, s.outbox);
        assert claimed == s.(holds := s.holds, job := claimed.job, outbox := s.outbox);
        AttemptIs(claimed, now, failAt);
      }
    }
  }

  lemma ObligingIsAboutMoney(s: Store, closed: Store)
    requires closed.bids == s.bids && closed.holds == s.holds && closed.hasWallet == s.hasWallet
    ensures Obliging(closed, None) <==> Obliging(s.(listing := closed.listing), None)
  {
  }

  lemma StagedJob(s: Store)
    requires Staged(s)
    ensures if Open(s.listing.status) then s.job.Some? ==> s.job.value.status in {Pending, Processing}
            else s.job.Some? && s.job.value.status in {Settling, Done, Processing}
  {
  }
}
