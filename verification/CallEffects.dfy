/** What a bidding call does to every table and what it answers, said from the columns before it. */
module CallEffects {
  import opened Wrappers
  import opened AuctionSession
  import opened BidTable
  import opened BidCursor
  import opened ProxyTable
  import opened HoldLedger
  import opened BidValidation
  import opened AuctionStore
  import opened StoreInvariant
  import opened Admission
  import opened CounterPlan
  import opened CallGuards
  import opened CounterInvariant
  import opened AuctionClosure
  import opened AuctionRuns
  import opened BidHistory

  // ----- which calls persist their bid

  /** The money the call has to move can be moved: the leader's hold released, the caller's taken. */
  predicate MoneyMoves(s: Store, e: Env) { !s.hasWallet || (e.holdOk && (s.bids == [] || e.releaseOk)) }

  predicate RowFits(s: Store, id: string, ok: bool) { ok && forall x <- s.bids :: x.id != id }

  /** The maximum covers the minimum, or is negative. */
  predicate Covers(s: Store, r: Request) { r.Proxy? ==> r.max < 0 || Minimum(s) <= r.max }

  /** Requests carry 64-bit numbers, and the price has not outgrown them. */
  predicate Fits(s: Store, r: Request) { r.Proxy? ==> IsI64(r.max) && Minimum(s) < I64_LIMIT }

  /** A call persists its bid exactly when that is not in the table yet, the catalogue agrees, it may lead at its price,
      and money and row go through. */
  lemma AcceptsIff(s: Store, r: Request, e: Env)
    requires Core(s) && Fits(s, r)
    ensures Accepts(s, r, e) <==>
              && !Matched(s, r) && e.catalogOk
              && CanLead(s, r.bidder, if r.Standard? then r.amount else Minimum(s), r.time) && Covers(s, r)
              && MoneyMoves(s, e) && RowFits(s, e.bidId, e.insertOk)
  {
    hide Core, Admit, AdmitStandard, AdmitProxy, CanLead, Minimum, Matched, LeaderMayRaise, ProxyRefusal;
    AdmitIs(s, r, e.catalogOk);
    match r
    case Standard(bidder, amount, time) => StandardAdmittedIff(s, bidder, amount, time);
    case Proxy(bidder, max, time) => ProxyAdmittedIff(s, bidder, max, time);
  }

  // ----- calls that persist nothing

  /** A call that is not let through to its money: a replay is answered with its row, a leader's maximum is stored and
      answered with the leading row, anything else is told what is wrong; and nothing but that maximum changes. */
  lemma UnadmittedCallReplies(s: Store, r: Request, e: Env)
    requires Core(s) && Fits(s, r) && !Admit(s, r, e.catalogOk).Admitted?
    ensures var (s', reply) := PlaceBid(s, r, e);
            if Matched(s, r) then
              && s' == s && reply.Placed? && reply.row in s.bids
              && reply.row.bidder == r.bidder && reply.row.amount == r.amount && reply.row.time == r.time
            else if !e.catalogOk then s' == s && reply == CatalogRefused
            else match r
              case Standard(bidder, amount, time) =>
                var refusal := Refusal(s, bidder, amount, time);
                s' == s && refusal.Some? && reply == Rejected(refusal.value)
              case Proxy(bidder, max, time) =>
                if LeaderMayRaise(s, bidder, max, time) then
                  s' == s.(proxies := UpsertMax(s.proxies, bidder, max, time)) && reply == Placed(Last(s.bids))
                else s' == s && reply == Rejected(ProxyRefusal(s, bidder, max, time))
  {
    hide Core, AdmitStandard, AdmitProxy, Commit, ResolveProxies, CanLead, Minimum, UpsertMax, ProxyRefusal, Refusal,
      Matching;
    AdmitIs(s, r, e.catalogOk);
    match r
    case Standard(bidder, amount, time) => StandardAdmittedIff(s, bidder, amount, time);
    case Proxy(bidder, max, time) => ProxyAdmittedIff(s, bidder, max, time);
  }

  /** The maxima after a call that set one: everyone else's, and the caller's at the new amount, dated when it first set
      one. */
  lemma MaximumIsSet(s: Store, r: Request, p: ProxyRow)
    requires Core(s) && r.Proxy?
    ensures p in WithMaximum(s, r).proxies <==>
              || (p.bidder != r.bidder && p in s.proxies)
              || (p.bidder == r.bidder && p.max == r.max
                  && if Knows(s.proxies, r.bidder)
                     then exists q <- s.proxies :: q.bidder == r.bidder && q.createdAt == p.createdAt
                     else p.createdAt == r.time)
  {
    UpsertSetsExactly(s.proxies, r.bidder, r.max, r.time, p);
  }

  /** A withdrawal takes away exactly the bidder's own maximum, and nothing else changes. */
  lemma WithdrawalRemovesExactly(s: Store, bidder: string)
    ensures var s' := Step(s, Withdrawing(bidder));
            && s' == s.(proxies := s'.proxies)
            && forall p :: p in s'.proxies <==> p in s.proxies && p.bidder != bidder
  {
  }

  /** An admitted call whose money or row fails says which, notes its maximum all the same, and leaves rows, listing,
      job and events alone. */
  lemma FailedCallReplies(s: Store, r: Request, e: Env)
    requires Core(s) && Admit(s, r, e.catalogOk).Admitted? && !Accepts(s, r, e)
    ensures var (s', reply) := PlaceBid(s, r, e);
            && s' == s.(proxies := WithMaximum(s, r).proxies, holds := s'.holds)
            && reply == if MoneyMoves(s, e) then DatabaseFailed else WalletFailed
  {
    hide Core, Admit, UpsertMax, Winner, Lead, Release;
    var a := Admit(s, r, e.catalogOk);
    CommitsIff(s, r, e);
    AdmittedBidCanLead(s, r, e.catalogOk);
    CoreWinner(s);
    LeaderIsBacked(s);
    FailedCommitLeavesTables(s, r, a.accepted, a.status, e);
  }

  // ----- calls that persist their bid

  /** The hold a new row is given. */
  function NextHold(s: Store, taken: nat): Option<nat> { if s.hasWallet then Some(|s.holds| + taken) else None }

  function CallersRow(s: Store, r: Request, e: Env): BidRow {
    BidRow(e.bidId, r.bidder, Price(s, r), r.time, NextHold(s, 0))
  }

  /** The listing once a bid of the price leads. */
  function LedListing(s: Store, price: int, time: int): Listing {
    s.listing.(cachedHighest := Some(price), endTime := Max(s.listing.endTime, time + 120),
               status := if s.listing.endTime <= time + 120 then Extended else s.listing.status)
  }

  function Displaced(s: Store, amount: int): seq<Event> {
    if s.bids == [] then [] else [Outbid(Last(s.bids).bidder, amount)]
  }

  lemma CommitEffects(s: Store, r: Request, e: Env)
    requires Core(s) && Accepts(s, r, e)
    ensures var a := Admit(s, r, e.catalogOk);
            var (s1, result) := Commit(s, r, a.accepted, a.status, e);
            && result == Ok(CallersRow(s, r, e))
            && s1.bids == s.bids + [CallersRow(s, r, e)]
            && s1.listing == LedListing(s, Price(s, r), r.time)
            && s1.job == UpsertPending(s.job, s1.listing.endTime)
            && s1.outbox == s.outbox + Displaced(s, Price(s, r))
            && s1.proxies == WithMaximum(s, r).proxies && s1.hasWallet == s.hasWallet
            && |s1.holds| == |s.holds| + if s.hasWallet then 1 else 0
  {
    hide Core, Commit, Admit, Minimum, UpsertMax, CanLead, HasId;
    var a := Admit(s, r, e.catalogOk);
    AdmittedBidCanLead(s, r, e.catalogOk);
    CommitsIff(s, r, e);
    CoreWinner(s);
    ReadLead(s, r.bidder, a.accepted.newHighest.amount, r.time);
    CommitLeads(s, r, a.accepted, a.status, e);
    MinimumTops(s, a.accepted.newHighest.amount);
  }

  lemma ReadLead(s: Store, bidder: string, amount: int, time: int)
    requires CanLead(s, bidder, amount, time)
    ensures (s.bids != [] ==> Last(s.bids).bidder != bidder) && Minimum(s) <= amount
  {
  }

  /** The counter gets its hold and its row. */
  predicate CounterWritten(s: Store, r: Request, e: Env) {
    DrawsCounter(s, r) && (s.hasWallet ==> e.autoHoldOk) && !CounterRowFails(s, r, e)
  }

  /** And the hold it displaces is released. */
  predicate CounterLands(s: Store, r: Request, e: Env) {
    CounterWritten(s, r, e) && (s.hasWallet ==> e.autoReleaseOk)
  }

  /** The rows of the store, the caller's, and the counter's, which replaces the caller's when it is its own. */
  predicate RowsAfter(s: Store, r: Request, e: Env, after: seq<BidRow>) {
    if !CounterWritten(s, r, e) then after == s.bids + [CallersRow(s, r, e)]
    else
      && after != []
      && var row := Last(after);
         && row.time == r.time + 1 && row.hold == NextHold(s, 1)
         && Price(s, r) < row.amount
         && PricedBy(WithMaximum(s, r).proxies, row.bidder, row.amount, Price(s, r), s.listing.terms.increment)
         && if CounterRaises(s, r) then after == s.bids + [row] && row.id == e.bidId && row.bidder == r.bidder
            else
              after == s.bids + [CallersRow(s, r, e), row] && row.id == e.autoBidId && row.bidder != r.bidder
  }

  lemma CounterEffects(s: Store, time: int, e: Env)
    requires Current(s) && JustLed(s, time)
    ensures var (s', failure) := ResolveProxies(s, time, e);
            var p := PlanCounter(s, time);
            var written := p.Counter? && (s.hasWallet ==> e.autoHoldOk) && !RowRefused(s, p, e);
            var landed := written && (s.hasWallet ==> e.autoReleaseOk);
            && (if written then
                  && p.time == time + 1 && Last(s.bids).amount < p.target
                  && (p.Raises() <==> p.bidder == Last(s.bids).bidder)
                  && s'.bids == CounterRows(s, p, e)
                  && (p.Raises() ==> CounterRow(s, p, e).id == Last(s.bids).id)
                else s'.bids == s.bids)
            && (if landed then
                  && s'.listing == LedListing(s, p.target, time + 1).(status := s'.listing.status)
                  && s'.listing.status == (if s.listing.endTime < time + 121 then Extended else s.listing.status)
                  && s'.job == UpsertPending(s.job, s'.listing.endTime)
                  && s'.outbox == s.outbox + (if p.Raises() then [] else [Outbid(Last(s.bids).bidder, p.target)])
                       + [BidPlaced(CounterRow(s, p, e).id, p.bidder, p.target, s'.listing.endTime)]
                else s'.listing == s.listing && s'.job == s.job && s'.outbox == s.outbox)
            && s'.proxies == s.proxies && s'.hasWallet == s.hasWallet
            && (p.Counter? ==>
                  && p.current == Last(s.bids)
                  && PricedBy(s.proxies, p.bidder, p.target, Last(s.bids).amount, s.listing.terms.increment))
  {
    hide Core, PlanCounter, PlaceCounter, RowRefused, PricedBy, Release, CounterRows, JustLed;
    var p := PlanCounter(s, time);
    if p.Counter? {
      PlannedCounter(s, time);
      PlannedStatus(s, time);
      CounterIsPriced(s, time);
      NewestRowIsBacked(s);
      JustLedHasRows(s, time);
      PlaceCounterExits(s, p, e);
    }
  }

  /** A counter that moves the end extends the auction. */
  lemma PlannedStatus(s: Store, time: int)
    requires Core(s) && JustLed(s, time) && PlanCounter(s, time).Counter?
    ensures s.listing.endTime < time + 121 ==> PlanCounter(s, time).status == Extended
  {
    hide CompetitorCap, Top, Winner;
    NewestIsPositive(s);
  }

  /** An accepted call, taken apart: the store after the caller's part, the counter's part, and the last event. */
  lemma AcceptedCallParts(s: Store, r: Request, e: Env)
    requires Core(s) && Accepts(s, r, e)
    ensures Admit(s, r, e.catalogOk).Admitted?
    ensures var a := Admit(s, r, e.catalogOk);
            var s1 := Commit(s, r, a.accepted, a.status, e).0;
            var p, s2, own := PlanCounter(s1, r.time), ResolveProxies(s1, r.time, e).0, CallersRow(s, r, e);
            var written := p.Counter? && (s1.hasWallet ==> e.autoHoldOk) && !RowRefused(s1, p, e);
            && Current(s1) && JustLed(s1, r.time) && s1.bids == s.bids + [own] && Last(s1.bids) == own
            && (written <==> CounterWritten(s, r, e))
            && (p.Counter? ==> (p.Raises() <==> CounterRaises(s, r)))
            && (if FailsOnCounter(s, r, e) then PlaceBid(s, r, e).0 == s2 && !PlaceBid(s, r, e).1.Placed?
                else
                  PlaceBid(s, r, e) ==
                  (Emit(s2, BidPlaced(own.id, own.bidder, own.amount, s1.listing.endTime)), Placed(own)))
  {
    hide Core, Admit, Commit, ResolveProxies, PlanCounter, Persisted, JustLed, DrawsCounter, DrawsRefusal,
      CounterRaises, CounterRowFails, Price, Accepts, PricedBy, WithMaximum, UpsertPending, InsertFails, LedListing;
    AcceptedCallPlans(s, r, e);
    CommitEffects(s, r, e);
    var a := Admit(s, r, e.catalogOk);
    var s1 := Commit(s, r, a.accepted, a.status, e).0;
    AcceptedCallReplies(s, r, e);
    ResolveRepliesIff(s1, r.time, e);
    assert Last(s1.bids) == CallersRow(s, r, e);
  }

  /** The rows after an accepted call are the old ones, the caller's and the counter's, the counter priced by the
      maxima; the maxima are those with the caller's. */
  lemma AcceptedCallRowsAre(s: Store, r: Request, e: Env)
    requires Core(s) && Accepts(s, r, e)
    ensures RowsAfter(s, r, e, PlaceBid(s, r, e).0.bids)
    ensures PlaceBid(s, r, e).0.proxies == WithMaximum(s, r).proxies
    ensures PlaceBid(s, r, e).1 == Placed(CallersRow(s, r, e)) <==> !FailsOnCounter(s, r, e)
  {
    hide Core, Current, Admit, Commit, ResolveProxies, PlanCounter, Persisted, JustLed, CounterWritten, CounterRaises,
      FailsOnCounter, Price, Accepts, PricedBy, WithMaximum, UpsertPending, RowRefused;
    AcceptedCallParts(s, r, e);
    CommitEffects(s, r, e);
    var a := Admit(s, r, e.catalogOk);
    var s1 := Commit(s, r, a.accepted, a.status, e).0;
    CounterEffects(s1, r.time, e);
    if CounterWritten(s, r, e) { CounterRowsAre(s, s1, r, e); }
  }

  /** The listing follows the last row that landed, to 120 seconds after it at least, and is extended exactly if the
      caller came within 120 seconds of the end; the closure is scheduled for that end. */
  lemma AcceptedCallListingIs(s: Store, r: Request, e: Env)
    requires Core(s) && Accepts(s, r, e)
    ensures var after, landed := PlaceBid(s, r, e).0, CounterLands(s, r, e);
            && after.bids != []
            && after.listing == LedListing(s, if landed then Last(after.bids).amount else Price(s, r), r.time)
                                  .(endTime := Max(s.listing.endTime, r.time + if landed then 121 else 120))
            && after.job.Some?
            && after.job.value.dueAt == after.listing.endTime && after.job.value.lockedUntil.None?
            && after.job.value.attempts == (if s.job.Some? then s.job.value.attempts else 0)
            && after.job.value.status ==
                 if s.job.Some? && s.job.value.status in {Settling, Done} then s.job.value.status else Pending
  {
    hide Core, Current, Admit, Commit, ResolveProxies, PlanCounter, Persisted, JustLed, CounterWritten, CounterRaises,
      FailsOnCounter, Price, Accepts, PricedBy, WithMaximum, UpsertPending, RowRefused,
      CounterRows, CounterRow;
    AcceptedCallParts(s, r, e);
    CommitEffects(s, r, e);
    var a := Admit(s, r, e.catalogOk);
    var s1 := Commit(s, r, a.accepted, a.status, e).0;
    CounterEffects(s1, r.time, e);
    SchedulesCompose(s.job, s1.listing.endTime, Max(s1.listing.endTime, r.time + 121));
    ScheduleIs(s.job, PlaceBid(s, r, e).0.listing.endTime);
    if CounterWritten(s, r, e) { CounterRowsAre(s, s1, r, e); }
  }

  /** The outbox of an accepted call tells the displaced leader, then of a counter that landed the displaced caller and
      the counter, and last the caller's bid, each with its amount and end; a call that fails on its counter never
      tells its own bid. */
  lemma AcceptedCallTells(s: Store, r: Request, e: Env)
    requires Core(s) && Accepts(s, r, e)
    ensures var after, own, landed := PlaceBid(s, r, e).0, CallersRow(s, r, e), CounterLands(s, r, e);
            && after.bids != []
            && after.outbox == s.outbox + Displaced(s, Price(s, r))
                 + (if landed then Told(s, r, Last(after.bids), after.listing.endTime) else [])
                 + (if FailsOnCounter(s, r, e) then []
                    else [BidPlaced(own.id, own.bidder, own.amount, Max(s.listing.endTime, r.time + 120))])
  {
    hide Core, Current, Admit, Commit, ResolveProxies, PlanCounter, Persisted, JustLed, CounterWritten, CounterRaises,
      FailsOnCounter, Price, Accepts, CounterLands, Displaced, Told, LedListing, RowRefused;
    AcceptedCallParts(s, r, e);
    CommitEffects(s, r, e);
    LedEnds(s, Price(s, r), r.time);
    var a := Admit(s, r, e.catalogOk);
    var s1 := Commit(s, r, a.accepted, a.status, e).0;
    CounterTells(s, s1, r, e);
  }

  lemma CounterTells(s: Store, s1: Store, r: Request, e: Env)
    requires Current(s1) && JustLed(s1, r.time) && s1.bids == s.bids + [CallersRow(s, r, e)]
    requires s1.hasWallet == s.hasWallet && |s1.holds| == |s.holds| + if s.hasWallet then 1 else 0
    requires var p := PlanCounter(s1, r.time);
             p.Counter? && (s1.hasWallet ==> e.autoHoldOk) && !RowRefused(s1, p, e) <==> CounterWritten(s, r, e)
    ensures var s2 := ResolveProxies(s1, r.time, e).0;
            && s2.bids != []
            && s2.outbox == s1.outbox + if CounterLands(s, r, e) then Told(s, r, Last(s2.bids), s2.listing.endTime)
                                        else []
  {
    hide Core, ResolveProxies, PlanCounter, JustLed, CounterWritten, Price, PricedBy, UpsertPending, RowRefused,
      LedListing, CounterRows;
    CounterEffects(s1, r.time, e);
    if CounterWritten(s, r, e) { CounterRowsAre(s, s1, r, e); }
  }

  lemma LedEnds(s: Store, price: int, time: int)
    ensures LedListing(s, price, time).endTime == Max(s.listing.endTime, time + 120)
  {
  }

  /** What a counter tells: the displaced caller, unless the counter is its own, and the counter. */
  function Told(s: Store, r: Request, row: BidRow, endTime: int): seq<Event> {
    (if row.bidder == r.bidder then [] else [Outbid(r.bidder, row.amount)])
    + [BidPlaced(row.id, row.bidder, row.amount, endTime)]
  }

  lemma ScheduleIs(job: Option<Job>, dueAt: int)
    ensures var j := UpsertPending(job, dueAt);
            && j.Some? && j.value.dueAt == dueAt && j.value.lockedUntil.None?
            && j.value.attempts == (if job.Some? then job.value.attempts else 0)
            && j.value.status == if job.Some? && job.value.status in {Settling, Done} then job.value.status else Pending
  {
  }

  lemma SchedulesCompose(job: Option<Job>, first: int, second: int)
    ensures UpsertPending(UpsertPending(job, first), second) == UpsertPending(job, second)
  {
  }

  lemma CounterRowsAre(s: Store, s1: Store, r: Request, e: Env)
    requires PlanCounter(s1, r.time).Counter? && s1.bids == s.bids + [CallersRow(s, r, e)]
    requires s1.hasWallet == s.hasWallet && |s1.holds| == |s.holds| + if s.hasWallet then 1 else 0
    requires PlanCounter(s1, r.time).current == Last(s1.bids)
    ensures var p := PlanCounter(s1, r.time);
            var row := CounterRow(s1, p, e);
            && CounterRows(s1, p, e) == (if p.Raises() then s.bids + [row] else s.bids + [CallersRow(s, r, e), row])
            && Last(CounterRows(s1, p, e)) == row
            && row.hold == NextHold(s, 1) && row.bidder == p.bidder && row.amount == p.target && row.time == p.time
            && row.id == if p.Raises() then Last(s1.bids).id else e.autoBidId
  {
    hide PlanCounter, Price;
  }

  // ----- the ledger

  /** The holds once the leader's is given back. */
  function Freed(s: Store): seq<Hold> {
    seq(|s.holds|, i requires 0 <= i < |s.holds| =>
      if s.bids != [] && Last(s.bids).hold == Some(i) && s.holds[i].state == Live
      then s.holds[i].(state := Released) else s.holds[i])
  }

  lemma ReleaseFrees(s: Store)
    requires s.bids != []
    ensures Release(s.holds, Last(s.bids).hold) == Freed(s)
  {
  }

  lemma NothingToFree(s: Store)
    requires s.bids == []
    ensures Freed(s) == s.holds
  {
  }

  /** The holds an admitted call leaves that does not persist its bid: untouched if the leader's could not be given
      back; that one given back if no hold came; and the caller's hold on top, given back or stray, if only the row
      failed. */
  lemma FailedCallHolds(s: Store, r: Request, e: Env)
    requires Core(s) && Admit(s, r, e.catalogOk).Admitted? && !Accepts(s, r, e)
    ensures PlaceBid(s, r, e).0.holds ==
              if !s.hasWallet || (s.bids != [] && !e.releaseOk) then s.holds
              else if !e.holdOk then Freed(s)
              else Freed(s) + [Hold(r.bidder, Rupiah(Price(s, r)), if e.undoOk then Released else Live)]
  {
    hide Core, Admit, UpsertMax, Winner, Lead, Rupiah, Release, Freed, Minimum, CanLead, HasId;
    var a := Admit(s, r, e.catalogOk);
    CommitsIff(s, r, e);
    AdmittedBidCanLead(s, r, e.catalogOk);
    ReadLead(s, r.bidder, a.accepted.newHighest.amount, r.time);
    CoreWinner(s);
    LeaderIsBacked(s);
    if s.bids == [] { NothingToFree(s); } else { ReleaseFrees(s); }
    UndoneLast(Freed(s), Hold(r.bidder, Rupiah(Price(s, r)), Live));
  }

  lemma UndoneLast(holds: seq<Hold>, hold: Hold)
    requires hold.state == Live
    ensures Release(holds + [hold], Some(|holds|)) == holds + [hold.(state := Released)]
  {
  }

  /** The holds an accepted call leaves: the leader's given back, the caller's on top of them, and the counter's on top
      of that if it got one. The caller's is given back exactly if a counter landed, the counter's exactly if its row
      failed and the wallet took it back. */
  lemma AcceptedCallHolds(s: Store, r: Request, e: Env)
    requires Core(s) && Accepts(s, r, e) && s.hasWallet
    ensures var after, n, drawn := PlaceBid(s, r, e).0, |s.holds|, DrawsCounter(s, r) && e.autoHoldOk;
            && |after.holds| == n + (if drawn then 2 else 1)
            && after.holds[..n] == Freed(s)
            && after.holds[n] == Hold(r.bidder, Rupiah(Price(s, r)), if CounterLands(s, r, e) then Released else Live)
            && (drawn ==>
                  && after.holds[n + 1].state == (if CounterRowFails(s, r, e) && e.autoUndoOk then Released else Live)
                  && exists amount ::
                       && PricedBy(WithMaximum(s, r).proxies, after.holds[n + 1].user, amount, Price(s, r),
                                   s.listing.terms.increment)
                       && after.holds[n + 1].amount == Rupiah(amount)
                       && (CounterWritten(s, r, e) ==>
                             after.bids != [] && amount == Last(after.bids).amount
                             && after.holds[n + 1].user == Last(after.bids).bidder))
  {
    hide Core, Current, Admit, Commit, ResolveProxies, PlanCounter, Persisted, JustLed, CounterRaises, FailsOnCounter,
      Price, Accepts, PricedBy, WithMaximum, UpsertPending, RowRefused, LedListing, DrawsCounter, CounterRowFails,
      DrawsRefusal, Rupiah, Freed, CallersRow;
    AcceptedCallParts(s, r, e);
    AcceptedCallPlans(s, r, e);
    CommitHolds(s, r, e);
    var a := Admit(s, r, e.catalogOk);
    var s1 := Commit(s, r, a.accepted, a.status, e).0;
    CounterHoldsAre(s1, r.time, e);
    if DrawsCounter(s, r) { CountersHoldIsPriced(s, r, e); }
    if CounterLands(s, r, e) { UndoneLast(Freed(s), Hold(r.bidder, Rupiah(Price(s, r)), Live)); }
  }

  lemma CountersHoldIsPriced(s: Store, r: Request, e: Env)
    requires Core(s) && Accepts(s, r, e) && s.hasWallet && DrawsCounter(s, r)
    ensures var a := Admit(s, r, e.catalogOk);
            var s1 := Commit(s, r, a.accepted, a.status, e).0;
            var p, after := PlanCounter(s1, r.time), PlaceBid(s, r, e).0.bids;
            && p.Counter?
            && PricedBy(WithMaximum(s, r).proxies, p.bidder, p.target, Price(s, r), s.listing.terms.increment)
            && (CounterWritten(s, r, e) ==>
                  after != [] && p.target == Last(after).amount && p.bidder == Last(after).bidder)
            && Last(s1.bids).hold == Some(|s.holds|)
  {
    hide Core, Current, Admit, Commit, ResolveProxies, PlanCounter, Persisted, JustLed, CounterRaises, FailsOnCounter,
      Price, Accepts, PricedBy, WithMaximum, UpsertPending, RowRefused, LedListing, DrawsCounter, CounterRowFails,
      DrawsRefusal, CounterRows, CounterRow;
    AcceptedCallParts(s, r, e);
    AcceptedCallPlans(s, r, e);
    CommitEffects(s, r, e);
    LedTerms(s, Price(s, r), r.time);
    var a := Admit(s, r, e.catalogOk);
    var s1 := Commit(s, r, a.accepted, a.status, e).0;
    CounterEffects(s1, r.time, e);
    if CounterWritten(s, r, e) { CounterRowsAre(s, s1, r, e); }
  }

  lemma LedTerms(s: Store, price: int, time: int)
    ensures LedListing(s, price, time).terms == s.listing.terms
  {
  }

  lemma CommitHolds(s: Store, r: Request, e: Env)
    requires Core(s) && Accepts(s, r, e) && s.hasWallet
    ensures var a := Admit(s, r, e.catalogOk);
            var s1 := Commit(s, r, a.accepted, a.status, e).0;
            && s1.holds == Freed(s) + [Hold(r.bidder, Rupiah(Price(s, r)), Live)] && s1.hasWallet
    ensures |Freed(s)| == |s.holds|
  {
    hide Core, Commit, Admit, Minimum, UpsertMax, CanLead, HasId, Rupiah, Release;
    var a := Admit(s, r, e.catalogOk);
    AdmittedBidCanLead(s, r, e.catalogOk);
    CommitsIff(s, r, e);
    CoreWinner(s);
    ReadLead(s, r.bidder, a.accepted.newHighest.amount, r.time);
    CommitLeads(s, r, a.accepted, a.status, e);
    if s.bids == [] { NothingToFree(s); } else { ReleaseFrees(s); }
  }

  /** What the counter does to the ledger. */
  lemma CounterHoldsAre(s: Store, time: int, e: Env)
    requires Current(s) && JustLed(s, time) && s.hasWallet
    ensures var s', p := ResolveProxies(s, time, e).0, PlanCounter(s, time);
            if !(p.Counter? && e.autoHoldOk) then s'.holds == s.holds
            else
              var own := Hold(p.bidder, Rupiah(p.target), Live);
              s'.holds == if RowRefused(s, p, e)
                          then s.holds + [own.(state := if e.autoUndoOk then Released else Live)]
                          else if e.autoReleaseOk then Release(s.holds + [own], Last(s.bids).hold)
                          else s.holds + [own]
  {
    hide Core, PlanCounter, PlaceCounter, RowRefused, JustLed, Release, Rupiah;
    var p := PlanCounter(s, time);
    if p.Counter? {
      PlannedCounter(s, time);
      NewestRowIsBacked(s);
      JustLedHasRows(s, time);
      PlaceCounterExits(s, p, e);
      UndoneLast(s.holds, Hold(p.bidder, Rupiah(p.target), Live));
    }
  }

  // ----- counters over runs

  /** If the step is an accepted call that writes a counter, the newest row is priced by the maxima then noted. */
  predicate StepPricesCounter(s: Store, a: Action) {
    a.Bidding? && Accepts(s, a.request, a.env) && CounterWritten(s, a.request, a.env) ==>
      RowsAfter(s, a.request, a.env, Step(s, a).bids)
  }

  predicate EveryCounterIsPriced(s: Store, actions: seq<Action>)
    decreases actions
  {
    actions == [] || (StepPricesCounter(s, actions[0]) && EveryCounterIsPriced(Step(s, actions[0]), actions[1..]))
  }

  /** Over every run, whatever wallet and database answer, every counter row is bid for the senior maximum and priced by
      the maxima of its moment. */
  lemma {:induction false} RunPricesCounters(s: Store, actions: seq<Action>)
    requires Core(s)
    ensures EveryCounterIsPriced(s, actions)
    decreases actions
  {
    hide Core, Step, PlaceBid, Accepts, CounterWritten, RowsAfter;
    if actions != [] {
      if actions[0].Bidding? && Accepts(s, actions[0].request, actions[0].env) {
        AcceptedCallRowsAre(s, actions[0].request, actions[0].env);
        StepIsCall(s, actions[0]);
      }
      StepKeepsCore(s, actions[0]);
      RunPricesCounters(Step(s, actions[0]), actions[1..]);
    }
  }

  lemma StepIsCall(s: Store, a: Action)
    requires a.Bidding?
    ensures Step(s, a) == PlaceBid(s, a.request, a.env).0
  {
  }
}
