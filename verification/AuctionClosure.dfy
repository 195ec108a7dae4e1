/** Creating an auction, closing it, and settling the winner's money with retries. */
module AuctionClosure {
  import opened Wrappers
  import opened AuctionSession
  import opened BidTable
  import opened BidCursor
  import opened HoldLedger
  import opened BidValidation
  import opened AuctionStore

  const RETRY_AFTER_SECS := 30
  const CLAIM_SECS := 60
  const START_TIME_CLOCK_SKEW_SECS := 120

  // ----- creation

  datatype CreateCommand = CreateCommand(
    listingId: string, seller: string, auctionType: string,
    startingPrice: int, reserve: int, increment: int, startTime: int, endTime: int)
  {
    predicate Valid(now: int) {
      && !Blank(listingId) && !Blank(seller) && !Blank(auctionType)
      && 0 < startingPrice && 0 < increment && startingPrice <= reserve
      && startTime < endTime && now <= startTime + START_TIME_CLOCK_SKEW_SECS && now < endTime
    }
  }

  function Create(c: CreateCommand, now: int, hasWallet: bool): Option<Store> {
    if !c.Valid(now) then None
    else
      var status := if now < c.startTime then Draft else Active;
      var terms := Terms(c.seller, c.startingPrice, c.increment, c.reserve, c.startTime);
      var listing := Listing(terms, c.endTime, status, None);
      Some(Store(listing, [], [], UpsertPending(None, c.endTime), [AuctionCreated(c.endTime)], [], hasWallet))
  }

  // ----- the decision

  datatype Decision = Decision(status: Status, highest: Option<int>)

  /** The first listed row decides; without rows the cached highest does. */
  function Decide(l: Listing, listed: seq<BidRow>): Decision {
    var highest := if listed != [] then Some(listed[0].amount) else l.cachedHighest;
    Decision(if highest.Some? && l.terms.reserve <= highest.value then Won else Unsold, highest)
  }

  /** The stored decision is the domain's own just when no cached amount stands in for missing rows. */
  lemma DecisionAgreesWithSessionIff(l: Listing, rows: seq<BidRow>)
    requires 0 <= l.terms.reserve && forall x <- rows :: 0 <= x.amount
    ensures (Decide(l, Listed(rows)).status == Won <==> ToSession(l, Winner(rows)).Outcome().WonOutcome?)
            <==> !(rows == [] && l.cachedHighest.Some? && l.terms.reserve <= l.cachedHighest.value)
  {
    if rows != [] { assert Listed(rows)[0] in Listed(rows); }
  }

  // ----- moving the money

  /** Release the rows' holds in turn; the wallet may fail at one of them, which ends the attempt. */
  function ReleaseAll(holds: seq<Hold>, rows: seq<BidRow>, failAt: Option<nat>): (seq<Hold>, bool)
    decreases rows
  {
    if rows == [] then (holds, true)
    else
      var later := if failAt.Some? && 0 < failAt.value then Some(failAt.value - 1) else None;
      if rows[0].hold.None? then ReleaseAll(holds, rows[1..], later)
      else if failAt == Some(0) then (holds, false)
      else ReleaseAll(Release(holds, rows[0].hold), rows[1..], later)
  }

  /** Pay out a winner's hold, or release everything; a hold that is not live cannot be paid out. */
  function Settle(s: Store, failAt: Option<nat>): (seq<Hold>, bool) {
    var listed := Listed(s.bids);
    if !s.hasWallet then (s.holds, true)
    else if s.listing.status == Won then
      if listed == [] then (s.holds, false)
      else if listed[0].hold.None? then (s.holds, true)
      else if failAt == Some(0) || !IsLive(s.holds, listed[0].hold) then (s.holds, false)
      else (Convert(s.holds, listed[0].hold.value), true)
    else ReleaseAll(s.holds, listed, failAt)
  }

  // ----- job marks

  function MarkDone(job: Option<Job>): Option<Job> {
    if job.None? then None else Some(job.value.(status := Done, lockedUntil := None))
  }

  function MarkSettling(job: Option<Job>, dueAt: int): Option<Job> {
    Some(if job.None? then Job(dueAt, Settling, 0, None)
         else job.value.(status := Settling, dueAt := dueAt, lockedUntil := None))
  }

  /** Back to `status`, one attempt more, due again later. */
  function MarkRetry(job: Option<Job>, status: JobStatus, retryAt: int): Option<Job> {
    if job.None? then None
    else Some(Job(retryAt, status, job.value.attempts + 1, None))
  }

  // ----- closing calls

  /** How a closing call's database transaction goes: through; or a closing statement fails, which the worker answers
      by putting the job off; or beginning, reading or committing fails, which it does not answer. */
  datatype Tx = Commits | Fails | Breaks

  datatype CloseReply = Finished(listing: Listing) | Nothing | NotEnded | ClosureFailed | SettlementFailed

  /** One settlement attempt and the job mark that follows it. */
  function AttemptSettlement(s: Store, now: int, failAt: Option<nat>): (Store, CloseReply) {
    var (holds, ok) := Settle(s, failAt);
    if ok then (s.(holds := holds, job := MarkDone(s.job)), Finished(s.listing))
    else (s.(holds := holds, job := MarkRetry(s.job, Settling, now + RETRY_AFTER_SECS)), SettlementFailed)
  }

  /** The committed closing transaction, with the job marked for settlement. */
  function CloseListing(s: Store, now: int): Store {
    var listed := Listed(s.bids);
    var decision := Decide(s.listing, listed);
    var winner := if decision.status == Won then First(listed) else None;
    var ended := Event.AuctionEnded(decision.status,
                              if winner.Some? then Some(winner.value.bidder) else None,
                              if winner.Some? then Some(winner.value.amount) else None);
    Emit(s, ended).(listing := s.listing.(status := decision.status, cachedHighest := decision.highest),
                    job := MarkSettling(s.job, now))
  }

  /** Listings past their end that lost their job get one. */
  function Reconcile(s: Store, now: int): Store {
    if s.job.None? && s.listing.endTime <= now && s.listing.status !in {Won, Unsold, Closed, Cancelled}
    then s.(job := Some(Job(s.listing.endTime, Pending, 0, None))) else s
  }

  predicate Claimable(job: Option<Job>, now: int) {
    && job.Some? && job.value.status in {Pending, Settling} && job.value.dueAt <= now
    && (job.value.lockedUntil.None? || job.value.lockedUntil.value <= now)
  }

  /** The background worker: claim the due job and act on the status it had before the claim. A broken transaction
      leaves the job claimed. */
  function ProcessPending(s: Store, now: int, tx: Tx, failAt: Option<nat>): (Store, CloseReply) {
    var s0 := Reconcile(s, now);
    if !Claimable(s0.job, now) then (s0, Nothing)
    else
      var claimed := s0.(job := Some(s0.job.value.(status := Processing, lockedUntil := Some(now + CLAIM_SECS))));
      if tx.Breaks? then (claimed, ClosureFailed)
      else if s0.job.value.status == Settling then AttemptSettlement(claimed, now, failAt)
      else if s.listing.status in {Won, Unsold, Cancelled} then (claimed.(job := MarkDone(claimed.job)), Nothing)
      else if now < s.listing.endTime then (claimed.(job := UpsertPending(claimed.job, s.listing.endTime)), Nothing)
      else if tx.Fails? then (claimed.(job := MarkRetry(claimed.job, Pending, now + RETRY_AFTER_SECS)), ClosureFailed)
      else AttemptSettlement(CloseListing(claimed, now), now, failAt)
  }

  /** The manual close. */
  function CloseNow(s: Store, now: int, tx: Tx, failAt: Option<nat>): (Store, CloseReply) {
    if tx.Breaks? then (s, ClosureFailed)
    else if now < s.listing.endTime then (s, NotEnded)
    else if s.listing.status in {Won, Unsold} then (s, Finished(s.listing))
    else if tx.Fails? then (s, ClosureFailed)
    else AttemptSettlement(CloseListing(s, now), now, failAt)
  }
}
