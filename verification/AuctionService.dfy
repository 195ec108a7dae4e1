/** The service itself, statement by statement, against the transitions of `AuctionStore` and `AuctionClosure`. */
module AuctionService {
  import opened Wrappers
  import opened AuctionSession
  import opened BidTable
  import opened ProxyTable
  import opened HoldLedger
  import opened BidValidation
  import S = AuctionStore
  import C = AuctionClosure

  class AuctionService {
    var listing: Listing
    var bids: seq<BidRow>
    var proxies: seq<ProxyRow>
    var job: Option<S.Job>
    var outbox: seq<S.Event>
    var holds: seq<Hold>
    const hasWallet: bool

    function View(): S.Store
      reads this
    {
      S.Store(listing, bids, proxies, job, outbox, holds, hasWallet)
    }

    constructor (s: S.Store)
      ensures View() == s
    {
      listing, bids, proxies, job, outbox, holds := s.listing, s.bids, s.proxies, s.job, s.outbox, s.holds;
      hasWallet := s.hasWallet;
    }

    // ----- the wallet

    method HoldFunds(user: string, cents: int) returns (hold: Option<nat>)
      modifies this`holds
      ensures (View(), hold) == S.HoldFunds(old(View()), user, cents)
    {
      hold := None;
      if hasWallet {
        hold := Some(|holds|);
        holds := holds + [Hold(user, Rupiah(cents), Live)];
      }
    }

    method ReleaseHold(hold: Option<nat>)
      modifies this`holds
      ensures View() == S.ReleaseHold(old(View()), hold)
    {
      if hasWallet && hold.Some? {
        holds := Release(holds, hold);
      }
    }

    /** Give back a hold whose bid was not written; whether the wallet does so is not looked at. */
    method UndoHold(hold: Option<nat>, ok: bool)
      modifies this`holds
      ensures View() == S.UndoHold(old(View()), hold, ok)
    {
      if ok {
        ReleaseHold(hold);
      }
    }

    // ----- the tables

    method InsertBid(row: BidRow, ok: bool) returns (inserted: bool)
      modifies this`bids
      ensures inserted <==> !S.InsertFails(old(View()), row.id, ok)
      ensures bids == if inserted then old(bids) + [row] else old(bids)
    {
      inserted := ok && !HasId(bids, row.id);
      if inserted {
        bids := bids + [row];
      }
    }

    method Publish(event: S.Event)
      modifies this`outbox
      ensures View() == S.Emit(old(View()), event)
    {
      outbox := outbox + [event];
    }

    method RecordToDomain() returns (session: ListingAuctionSession)
      ensures fresh(session) && session.View() == ToSession(listing, Winner(bids))
    {
      var winner := Winner(bids);
      var highest := if winner.Some?
                     then Some(Bid(winner.value.bidder, AsU64(winner.value.amount), AsU64(winner.value.time)))
                     else None;
      session := new ListingAuctionSession.WithStatus(
        listing.terms.seller, AsU64(listing.terms.startingPrice), AsU64(listing.terms.increment),
        AsU64(listing.terms.reserve),
        AsU64(listing.terms.startTime), AsU64(listing.endTime), listing.status, highest);
    }

    // ----- bidding

    method PlaceBid(r: S.Request, e: S.Env) returns (reply: S.Reply)
      modifies this
      ensures (View(), reply) == S.PlaceBid(old(View()), r, e)
    {
      hide Matching, Validate, Winner, UpsertMax, ToSession, S.Commit, S.ResolveProxies;
      if r.Standard? {
        var existing := Matching(bids, r.bidder, r.amount, r.time);
        if existing.Some? {
          return S.Placed(existing.value);
        }
      }
      if !e.catalogOk {
        return S.CatalogRefused;
      }
      var previous := Winner(bids);
      if r.Standard? {
        var objection := Validate(STANDARD_BID, Context(listing, r.bidder, r.time, r.amount, previous));
        if objection.Some? {
          return S.Rejected(objection.value);
        }
      } else {
        var objection := TimePolicy(listing, r.time);
        if objection.Some? {
          return S.Rejected(objection.value);
        }
        if previous.Some? && previous.value.bidder == r.bidder {
          if r.bidder == listing.terms.seller {
            return S.Rejected(SelfBiddingNotAllowed(r.bidder));
          }
          if r.max < previous.value.amount {
            return S.Rejected(BidTooLow(AsU64(previous.value.amount)));
          }
          objection := WalletPolicy(r.max);
          if objection.Some? {
            return S.Rejected(objection.value);
          }
          proxies := UpsertMax(proxies, r.bidder, r.max, r.time);
          return S.Placed(previous.value);
        }
        objection := IdentityPolicy(listing, r.bidder, previous);
        if objection.Some? {
          return S.Rejected(objection.value);
        }
      }
      var auction := RecordToDomain();
      var verdict: Verdict;
      if r.Standard? {
        verdict := auction.PlaceBid(r.bidder, AsU64(r.amount), AsU64(r.time));
      } else {
        verdict := auction.PlaceProxyBid(r.bidder, AsU64(r.max), AsU64(r.time));
      }
      if verdict.Err? {
        return S.Rejected(verdict.error);
      }
      var tooLow := WalletPolicy(verdict.value.newHighest.amount);
      if tooLow.Some? {
        return S.Rejected(tooLow.value);
      }
      assert S.Admit(View(), r, e.catalogOk) == S.Admitted(verdict.value, auction.status);
      var committed := CommitBid(r, verdict.value, auction.status, e);
      if committed.Err? {
        return committed.error;
      }
      var row, endTime := committed.value, listing.endTime;
      var failure := ResolveProxyAutoBid(r.time, e);
      if failure.Some? {
        return failure.value;
      }
      Publish(S.BidPlaced(row.id, row.bidder, row.amount, endTime));
      reply := S.Placed(row);
    }

    /** From the accepted verdict to the persisted row: maxima, money, insert, outbid event, listing and job. */
    method CommitBid(r: S.Request, accepted: Accepted, status: Status, e: S.Env)
      returns (committed: Result<BidRow, S.Reply>)
      modifies this
      ensures (View(), committed) == S.Commit(old(View()), r, accepted, status, e)
    {
      hide Winner, UpsertMax, HasId, S.Announce, S.SwapHolds;
      var previous, amount := Winner(bids), accepted.newHighest.amount;
      if r.Proxy? {
        proxies := UpsertMax(proxies, r.bidder, r.max, r.time);
      }
      var swapped := SwapHolds(previous, r.bidder, amount, e);
      if swapped.Err? {
        return Err(swapped.error);
      }
      var hold := swapped.value;
      var row := BidRow(e.bidId, r.bidder, amount, r.time, hold);
      var inserted := InsertBid(row, e.insertOk);
      if !inserted {
        UndoHold(hold, e.undoOk);
        return Err(S.DatabaseFailed);
      }
      AnnounceLead(row, previous, accepted.newEndAt, status);
      committed := Ok(row);
    }

    /** Release the displaced leader, then hold the new one's funds. */
    method SwapHolds(previous: Option<BidRow>, bidder: string, amount: int, e: S.Env)
      returns (swapped: Result<Option<nat>, S.Reply>)
      modifies this`holds
      ensures (View(), swapped) == S.SwapHolds(old(View()), previous, bidder, amount, e)
    {
      if previous.Some? && previous.value.bidder != bidder {
        if hasWallet && previous.value.hold.Some? && !e.releaseOk {
          return Err(S.WalletFailed);
        }
        ReleaseHold(previous.value.hold);
      }
      if hasWallet && !e.holdOk {
        return Err(S.WalletFailed);
      }
      var hold := HoldFunds(bidder, amount);
      swapped := Ok(hold);
    }

    /** The outbid event, the conditional listing update and the closure job. */
    method AnnounceLead(row: BidRow, previous: Option<BidRow>, endTime: int, status: Status)
      modifies this`outbox, this`listing, this`job
      ensures View() == S.Announce(old(View()), row, previous, endTime, status)
    {
      if previous.Some? && previous.value.bidder != row.bidder {
        Publish(S.Outbid(previous.value.bidder, row.amount));
      }
      if listing.cachedHighest.None? || listing.cachedHighest.value < row.amount {
        listing := listing.(cachedHighest := Some(row.amount), endTime := endTime, status := status);
      }
      job := S.UpsertPending(job, listing.endTime);
    }

    method ResolveProxyAutoBid(bidTime: int, e: S.Env) returns (failure: Option<S.Reply>)
      modifies this
      ensures (View(), failure) == S.ResolveProxies(old(View()), bidTime, e)
    {
      hide Winner, Top, CompetitorCap, ToSession;
      if proxies == [] {
        return None;
      }
      var winner := Winner(bids);
      if winner.None? {
        return None;
      }
      var current, top, increment := winner.value, Top(proxies), listing.terms.increment;
      var rival := CompetitorCap(proxies, top.bidder);
      var competitorCap := if rival.Some? then rival.value else current.amount;
      var target := Min(top.max, competitorCap + increment);
      if target <= current.amount {
        return None;
      }
      if top.max < current.amount + increment {
        return None;
      }
      var autoTime := bidTime + 1;
      var status, endTime := listing.status, listing.endTime;
      if top.bidder == current.bidder {
        if endTime - autoTime <= 120 {
          endTime := autoTime + 120;
        }
        if listing.endTime < endTime {
          status := Extended;
        }
      } else {
        var auction := RecordToDomain();
        var verdict := auction.PlaceBid(top.bidder, AsU64(target), AsU64(autoTime));
        if verdict.Err? {
          return Some(S.Rejected(verdict.error));
        }
        status, endTime := auction.status, verdict.value.newEndAt;
      }
      var plan := S.Counter(top.bidder, current, target, autoTime, endTime, status);
      assert S.PlanCounter(View(), bidTime) == plan;
      failure := PlaceCounter(plan, e);
    }

    /** The counter's hold, row, release, outbid event, listing and job, in the service's order. */
    method PlaceCounter(p: S.Plan, e: S.Env) returns (failure: Option<S.Reply>)
      requires p.Counter?
      modifies this
      ensures (View(), failure) == S.PlaceCounter(old(View()), p, e)
    {
      if hasWallet && !e.autoHoldOk {
        return Some(S.WalletFailed);
      }
      var hold := HoldFunds(p.bidder, p.target);
      var row := BidRow(e.autoBidId, p.bidder, p.target, p.time, hold);
      if p.bidder == p.current.bidder {
        row := p.current.(amount := p.target, time := p.time, hold := hold);
        var updated := S.RaiseRow(bids, p.current.id, p.target, p.time, hold);
        if updated == bids {
          UndoHold(hold, e.autoUndoOk);
          return None;
        }
        bids := updated;
      } else {
        var inserted := InsertBid(row, e.autoInsertOk);
        if !inserted {
          UndoHold(hold, e.autoUndoOk);
          return Some(S.DatabaseFailed);
        }
      }
      if hasWallet && p.current.hold.Some? && !e.autoReleaseOk {
        return Some(S.WalletFailed);
      }
      ReleaseHold(p.current.hold);
      if p.current.bidder != p.bidder {
        Publish(S.Outbid(p.current.bidder, p.target));
      }
      if listing.cachedHighest.Some? && p.target <= listing.cachedHighest.value {
        UndoHold(hold, e.autoUndoOk);
        if row.id != p.current.id {
          bids := Where(bids, (x: BidRow) => x.id != row.id);
        }
        return None;
      }
      listing := S.Advance(listing, p.target, p.endTime, p.status);
      job := S.UpsertPending(job, listing.endTime);
      Publish(S.BidPlaced(row.id, row.bidder, row.amount, listing.endTime));
      failure := None;
    }

    method DeleteProxyBid(bidder: string)
      modifies this`proxies
      ensures View() == S.DeleteProxy(old(View()), bidder)
    {
      proxies := DeleteFor(proxies, bidder);
    }

    // ----- closing

    /** Release the listed rows' holds one after the other until the wallet fails. */
    method ReleaseListed(listed: seq<BidRow>, failAt: Option<nat>) returns (ok: bool)
      modifies this`holds
      ensures (holds, ok) == C.ReleaseAll(old(holds), listed, failAt)
    {
      hide Release;
      var i, left := 0, failAt;
      while i < |listed|
        invariant 0 <= i <= |listed|
        invariant C.ReleaseAll(holds, listed[i..], left) == C.ReleaseAll(old(holds), listed, failAt)
      {
        assert listed[i..][0] == listed[i] && listed[i..][1..] == listed[i + 1..];
        if listed[i].hold.Some? {
          if left == Some(0) {
            return false;
          }
          holds := Release(holds, listed[i].hold);
        }
        left := if left.Some? && 0 < left.value then Some(left.value - 1) else None;
        i := i + 1;
      }
      ok := true;
    }

    method SideEffects(failAt: Option<nat>) returns (ok: bool)
      modifies this`holds
      ensures (holds, ok) == C.Settle(old(View()), failAt)
    {
      var listed := Listed(bids);
      if !hasWallet {
        return true;
      }
      if listing.status == Won {
        if listed == [] {
          return false;
        }
        var hold := listed[0].hold;
        if hold.None? {
          return true;
        }
        if failAt == Some(0) || !IsLive(holds, hold) {
          return false;
        }
        holds := Convert(holds, hold.value);
        return true;
      }
      ok := ReleaseListed(listed, failAt);
    }

    method SettleAndMark(now: int, failAt: Option<nat>) returns (reply: C.CloseReply)
      modifies this`holds, this`job
      ensures (View(), reply) == C.AttemptSettlement(old(View()), now, failAt)
    {
      var ok := SideEffects(failAt);
      if !ok {
        job := C.MarkRetry(job, S.Settling, now + C.RETRY_AFTER_SECS);
        return C.SettlementFailed;
      }
      job := C.MarkDone(job);
      reply := C.Finished(listing);
    }

    method ExecuteClosure(now: int)
      modifies this`listing, this`outbox, this`job
      ensures View() == C.CloseListing(old(View()), now)
    {
      var listed := Listed(bids);
      var decision := C.Decide(listing, listed);
      var winner := if decision.status == Won then First(listed) else None;
      listing := listing.(status := decision.status, cachedHighest := decision.highest);
      Publish(S.Event.AuctionEnded(decision.status,
                                   if winner.Some? then Some(winner.value.bidder) else None,
                                   if winner.Some? then Some(winner.value.amount) else None));
      job := C.MarkSettling(job, now);
    }

    method ProcessOnePendingClosure(now: int, tx: C.Tx, failAt: Option<nat>) returns (reply: C.CloseReply)
      modifies this
      ensures (View(), reply) == C.ProcessPending(old(View()), now, tx, failAt)
    {
      if job.None? && listing.endTime <= now && listing.status !in {Won, Unsold, Closed, Cancelled} {
        job := Some(S.Job(listing.endTime, S.Pending, 0, None));
      }
      assert View() == C.Reconcile(old(View()), now);
      if !C.Claimable(job, now) {
        return C.Nothing;
      }
      var claimed := job.value;
      job := Some(claimed.(status := S.Processing, lockedUntil := Some(now + C.CLAIM_SECS)));
      if tx.Breaks? {
        return C.ClosureFailed;
      }
      if claimed.status == S.Settling {
        reply := SettleAndMark(now, failAt);
        return;
      }
      if listing.status in {Won, Unsold, Cancelled} {
        job := C.MarkDone(job);
        return C.Nothing;
      }
      if now < listing.endTime {
        job := S.UpsertPending(job, listing.endTime);
        return C.Nothing;
      }
      if tx.Fails? {
        job := C.MarkRetry(job, S.Pending, now + C.RETRY_AFTER_SECS);
        return C.ClosureFailed;
      }
      ExecuteClosure(now);
      reply := SettleAndMark(now, failAt);
    }

    method CloseAuction(now: int, tx: C.Tx, failAt: Option<nat>) returns (reply: C.CloseReply)
      modifies this
      ensures (View(), reply) == C.CloseNow(old(View()), now, tx, failAt)
    {
      if tx.Breaks? {
        return C.ClosureFailed;
      }
      if now < listing.endTime {
        return C.NotEnded;
      }
      if listing.status in {Won, Unsold} {
        return C.Finished(listing);
      }
      if tx.Fails? {
        return C.ClosureFailed;
      }
      ExecuteClosure(now);
      reply := SettleAndMark(now, failAt);
    }
  }
}
