/** Exactly which bidding calls are admitted, and what the others are told. */
module Admission {
  import opened Wrappers
  import opened AuctionSession
  import opened BidTable
  import opened BidCursor
  import opened ProxyTable
  import opened BidValidation
  import opened AuctionStore
  import opened StoreInvariant

  // ----- standard bids

  /** A row of the table is the one the request asks for. */
  predicate Matched(s: Store, r: Request) {
    r.Standard? && exists x <- s.bids :: x.bidder == r.bidder && x.amount == r.amount && x.time == r.time
  }

  /** The first thing wrong with a bid of the given amount: the auction is not open, has not started, is over; the
      bidder may not bid; the amount is too low. */
  function Refusal(s: Store, bidder: string, amount: int, time: int): (e: Option<BidError>)
    ensures e.None? <==> CanLead(s, bidder, amount, time)
  {
    if s.listing.status !in {Active, Extended} then Some(AuctionNotActive(s.listing.status))
    else if time < s.listing.terms.startTime then Some(AuctionNotStarted(AsU64(s.listing.terms.startTime)))
    else if s.listing.endTime <= time then Some(BidError.AuctionEnded(AsU64(s.listing.endTime)))
    else if bidder == s.listing.terms.seller || (s.bids != [] && bidder == Last(s.bids).bidder) then
      Some(SelfBiddingNotAllowed(bidder))
    else if amount < Minimum(s) then Some(BidTooLow(Minimum(s)))
    else None
  }

  lemma NewestIsPositive(s: Store)
    requires Core(s)
    ensures Winner(s.bids) == Newest(s.bids) && 0 <= s.listing.terms.startTime && 0 < Minimum(s)
    ensures 0 < s.listing.terms.startingPrice && 0 < s.listing.terms.increment
    ensures s.bids != [] ==>
              0 < Last(s.bids).amount && 0 <= Last(s.bids).time && Last(s.bids).bidder != s.listing.terms.seller
  {
    hide ProxiesOk, StatusOk, CacheNotAbove, Winner;
    WinnerIsNewest(s.listing.terms, s.bids);
    if s.bids != [] { assert Last(s.bids) in s.bids; }
  }

  /** A standard bid is admitted exactly when it may lead, and otherwise told the first thing wrong with it. */
  lemma StandardAdmittedIff(s: Store, bidder: string, amount: int, time: int)
    requires Core(s)
    ensures AdmitStandard(s, bidder, amount, time).Admitted? <==> CanLead(s, bidder, amount, time)
    ensures !CanLead(s, bidder, amount, time) ==>
              AdmitStandard(s, bidder, amount, time) == Refused(Rejected(Refusal(s, bidder, amount, time).value))
  {
    hide Core, Winner, Validate;
    NewestIsPositive(s);
    StandardChainUnfolds(Context(s.listing, bidder, time, amount, Winner(s.bids)));
  }

  // ----- proxy maxima

  /** The leader of an open auction sets a maximum not below what it bids already. */
  predicate LeaderMayRaise(s: Store, bidder: string, max: int, time: int) {
    && s.listing.status in {Active, Extended}
    && s.listing.terms.startTime <= time < s.listing.endTime
    && s.bids != [] && Last(s.bids).bidder == bidder && Last(s.bids).amount <= max
  }

  /** The leader's maximum is noted exactly when it covers the leading bid; a challenger is admitted exactly when the
      minimum may lead and its maximum covers that, or is negative. */
  lemma ProxyAdmittedIff(s: Store, bidder: string, max: int, time: int)
    requires Core(s) && IsI64(max) && Minimum(s) < I64_LIMIT
    ensures var a := AdmitProxy(s, bidder, max, time);
            && (a.MaxRaised? <==> LeaderMayRaise(s, bidder, max, time))
            && (a.MaxRaised? ==> a.row == Last(s.bids))
            && (a.Admitted? <==> CanLead(s, bidder, Minimum(s), time) && (max < 0 || Minimum(s) <= max))
            && !a.Replayed?
            && (a.Refused? ==> a.reply == Rejected(ProxyRefusal(s, bidder, max, time)))
  {
    hide Core, Winner, Validate;
    NewestIsPositive(s);
  }

  /** What a refused proxy call is told: as a standard bid of the minimum would be, except that the leader is told its
      own bid and a challenger with too low a maximum the minimum. */
  function ProxyRefusal(s: Store, bidder: string, max: int, time: int): BidError {
    var asBid := Refusal(s, bidder, Minimum(s), time);
    if asBid.Some? && !(asBid.value.SelfBiddingNotAllowed? && bidder != s.listing.terms.seller) then asBid.value
    else if s.bids != [] && bidder == Last(s.bids).bidder then BidTooLow(Last(s.bids).amount)
    else BidTooLow(Minimum(s))
  }

  // ----- the whole admission

  /** What a call is told when nothing is wrong with the catalogue and its bid is not there already. */
  lemma AdmitIs(s: Store, r: Request, catalogOk: bool)
    ensures Matched(s, r) ==> Admit(s, r, catalogOk).Replayed?
    ensures !Matched(s, r) ==>
              Admit(s, r, catalogOk) ==
                if !catalogOk then Refused(CatalogRefused)
                else match r
                  case Standard(bidder, amount, time) => AdmitStandard(s, bidder, amount, time)
                  case Proxy(bidder, max, time) => AdmitProxy(s, bidder, max, time)
  {
    hide AdmitStandard, AdmitProxy;
  }
}
