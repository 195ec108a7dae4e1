/** The domain auction: who may bid, how much, and how late bids push the end time back. */
module AuctionSession {
  import opened Wrappers

  const ANTI_SNIPING_WINDOW_SECS := 120
  const ANTI_SNIPING_EXTENSION_SECS := 120

  datatype Status = Draft | Active | Extended | Closed | Won | Unsold | Cancelled
  {
    /** Only the Active and Extended lifecycle states accept bids. */
    predicate CanBid() { Active? || Extended? }

    function AfterExtension(): Status { if CanBid() then Extended else this }
  }

  datatype Bid = Bid(bidder: string, amount: int, placedAt: int)

  datatype Offer = Offer(bidder: string, amount: int, now: int)

  datatype BidError =
    | AuctionNotActive(status: Status)
    | AuctionNotStarted(startAt: int)
    | AuctionEnded(endAt: int)
    | BidTooLow(minimum: int)
    | SelfBiddingNotAllowed(bidder: string)

  datatype StateError = TooEarly(startAt: int) | AlreadyEnded(endAt: int) | IsCancelled

  datatype Accepted = Accepted(newHighest: Bid, previousHighest: Option<Bid>, extended: bool, newEndAt: int)

  datatype AuctionOutcome = WonOutcome | UnsoldOutcome

  /** The fields of a session, as a value. */
  datatype Session = Session(
    seller: string, startingPrice: int, increment: int, reserve: int,
    startAt: int, endAt: int, status: Status, highest: Option<Bid>, extensions: nat)
  {
    function MinimumRequired(): int {
      match highest
      case Some(bid) => bid.amount + increment
      case None => startingPrice
    }

    predicate IsLeader(bidder: string) { highest.Some? && highest.value.bidder == bidder }

    /** The whole condition under which a bid is taken. */
    predicate Takes(bidder: string, amount: int, now: int) {
      && status.CanBid()
      && startAt <= now < endAt
      && bidder != seller
      && !IsLeader(bidder)
      && MinimumRequired() <= amount
    }

    /** The first objection to a bid, in the order the session raises them. */
    function Objection(bidder: string, amount: int, now: int): (e: Option<BidError>)
      ensures e.None? <==> Takes(bidder, amount, now)
    {
      if !status.CanBid() then Some(AuctionNotActive(status))
      else if now < startAt then Some(AuctionNotStarted(startAt))
      else if endAt <= now then Some(AuctionEnded(endAt))
      else if bidder == seller || IsLeader(bidder) then Some(SelfBiddingNotAllowed(bidder))
      else if amount < MinimumRequired() then Some(BidTooLow(MinimumRequired()))
      else None
    }

    /** Arriving at an open session past its end closes it, whatever else is wrong with the bid. */
    function Arrive(now: int): Session {
      if status.CanBid() && startAt <= now && endAt <= now then this.(status := Closed) else this
    }

    /** The session once a bid it takes has become the highest one. */
    function Lead(bid: Bid): (r: Session)
      ensures r.endAt == Max(endAt, bid.placedAt + ANTI_SNIPING_EXTENSION_SECS)
    {
      var late := SecondsUntil(bid.placedAt, endAt) <= ANTI_SNIPING_WINDOW_SECS;
      this.(
        highest := Some(bid),
        endAt := if late then bid.placedAt + ANTI_SNIPING_EXTENSION_SECS else endAt,
        extensions := if late then extensions + 1 else extensions,
        status := if late then status.AfterExtension() else status)
    }

    function AcceptedBy(bid: Bid): Accepted {
      Accepted(bid, highest, SecondsUntil(bid.placedAt, endAt) <= ANTI_SNIPING_WINDOW_SECS, Lead(bid).endAt)
    }

    function PlaceBid(bidder: string, amount: int, now: int): (r: (Session, Verdict))
      ensures r.1.Ok? <==> Takes(bidder, amount, now)
      ensures r.1.Err? ==> r.0 == Arrive(now)
    {
      match Objection(bidder, amount, now)
      case Some(e) => (Arrive(now), Err(e))
      case None => var bid := Bid(bidder, amount, now); (Lead(bid), Ok(AcceptedBy(bid)))
    }

    function PlaceProxyBid(bidder: string, max: int, now: int): (Session, Verdict) {
      if !status.CanBid() || now < startAt || endAt <= now || bidder == seller then
        PlaceBid(bidder, max, now)
      else if IsLeader(bidder) then
        var current := highest.value;
        if max < current.amount then (this, Err(BidTooLow(current.amount)))
        else (this, Ok(Accepted(current, Some(current), false, endAt)))
      else if max < MinimumRequired() then (this, Err(BidTooLow(MinimumRequired())))
      else PlaceBid(bidder, MinimumRequired(), now)
    }

    function Outcome(): AuctionOutcome {
      if highest.Some? && reserve <= highest.value.amount then WonOutcome else UnsoldOutcome
    }

    /** The same session with its extension counter forgotten. */
    function Uncounted(): Session { this.(extensions := 0) }
  }

  function SecondsUntil(now: int, later: int): int { if now < later then later - now else 0 }

  type Verdict = Result<Accepted, BidError>

  /** A challenger's proxy bid leads at exactly the minimum, and is taken just when its maximum reaches it. */
  lemma ProxyBidLeadsAtMinimum(a: Session, bidder: string, max: int, now: int)
    requires !a.IsLeader(bidder)
    ensures a.PlaceProxyBid(bidder, max, now).1.Ok? <==>
              a.Takes(bidder, a.MinimumRequired(), now) && a.MinimumRequired() <= max
    ensures a.PlaceProxyBid(bidder, max, now).1.Ok? ==>
              a.PlaceProxyBid(bidder, max, now) == a.PlaceBid(bidder, a.MinimumRequired(), now)
  {
  }

  /** What a bid meets: taken exactly by an open session in its window, from neither the seller nor the leader, at the
      minimum or above; it then leads, and the end is at least 120 seconds away. */
  lemma BidIsTakenIff(a: Session, bidder: string, amount: int, now: int)
    ensures var (b, verdict) := a.PlaceBid(bidder, amount, now);
            var minimum := if a.highest.Some? then a.highest.value.amount + a.increment else a.startingPrice;
            && (verdict.Ok? <==>
                  && a.status in {Active, Extended} && a.startAt <= now < a.endAt && bidder != a.seller
                  && (a.highest.Some? ==> a.highest.value.bidder != bidder) && minimum <= amount)
            && (verdict.Ok? ==>
                  var late := a.endAt <= now + 120;
                  && verdict.value == Accepted(Bid(bidder, amount, now), a.highest, late, Max(a.endAt, now + 120))
                  && b == a.(highest := Some(Bid(bidder, amount, now)), endAt := Max(a.endAt, now + 120),
                             extensions := a.extensions + (if late then 1 else 0),
                             status := if late then Extended else a.status))
            && (verdict.Err? ==>
                  b == if a.status in {Active, Extended} && a.startAt <= now && a.endAt <= now
                       then a.(status := Closed) else a)
  {
  }

  /** A refused bid is told the first thing wrong with it. */
  lemma RefusalNamesTheFirstFault(a: Session, bidder: string, amount: int, now: int)
    requires a.PlaceBid(bidder, amount, now).1.Err?
    ensures var error := a.PlaceBid(bidder, amount, now).1.error;
            var minimum := if a.highest.Some? then a.highest.value.amount + a.increment else a.startingPrice;
            && (error == AuctionNotActive(a.status) <==> a.status !in {Active, Extended})
            && (a.status in {Active, Extended} ==>
                  && (error == AuctionNotStarted(a.startAt) <==> now < a.startAt)
                  && (error == AuctionEnded(a.endAt) <==> a.startAt <= now && a.endAt <= now)
                  && (a.startAt <= now < a.endAt ==>
                        var own := bidder == a.seller || (a.highest.Some? && a.highest.value.bidder == bidder);
                        error == if own then SelfBiddingNotAllowed(bidder) else BidTooLow(minimum)))
  {
  }

  /** The leader of an open session may set any maximum not below its bid, which changes nothing it shows. */
  lemma LeadersMaximumIsTakenIff(a: Session, bidder: string, max: int, now: int)
    requires a.highest.Some? && a.highest.value.bidder == bidder && bidder != a.seller
    requires a.status in {Active, Extended} && a.startAt <= now < a.endAt
    ensures var (b, verdict) := a.PlaceProxyBid(bidder, max, now);
            var mine := a.highest.value;
            && b == a
            && verdict == if mine.amount <= max then Ok(Accepted(mine, Some(mine), false, a.endAt))
                          else Err(BidTooLow(mine.amount))
  {
  }

  class ListingAuctionSession {
    const seller: string
    const startingPrice: int
    const increment: int
    const reserve: int
    const startAt: int
    var endAt: int
    var status: Status
    var currentHighest: Option<Bid>
    var extensions: nat

    function View(): Session
      reads this
    {
      Session(seller, startingPrice, increment, reserve, startAt, endAt, status, currentHighest, extensions)
    }

    constructor (seller: string, startingPrice: int, increment: int, reserve: int, startAt: int, endAt: int)
      ensures View() == Session(seller, startingPrice, increment, reserve, startAt, endAt, Draft, None, 0)
    {
      this.seller, this.startingPrice, this.increment, this.reserve := seller, startingPrice, increment, reserve;
      this.startAt, this.endAt, this.status, this.currentHighest, this.extensions := startAt, endAt, Draft, None, 0;
    }

    constructor WithStatus(seller: string, startingPrice: int, increment: int, reserve: int, startAt: int, endAt: int,
                           status: Status, currentHighest: Option<Bid>)
      ensures View() == Session(seller, startingPrice, increment, reserve, startAt, endAt, status, currentHighest, 0)
    {
      this.seller, this.startingPrice, this.increment, this.reserve := seller, startingPrice, increment, reserve;
      this.startAt, this.endAt, this.status, this.currentHighest := startAt, endAt, status, currentHighest;
      this.extensions := 0;
    }

    /** Activation opens a draft inside its time window, never reopens a finished auction, and moves no end time. */
    method Activate(now: int) returns (r: Result<(), StateError>)
      modifies this`status
      ensures r.Ok? <==> old(status) in {Draft, Active, Extended} && startAt <= now < endAt
      ensures r.Ok? ==> status == if old(status) == Draft then Active else old(status)
      ensures r.Err? ==>
                status == if old(status) in {Draft, Active, Extended} && startAt <= now then Closed else old(status)
      ensures r == Err(IsCancelled) <==> old(status) == Cancelled
      ensures r == Err(TooEarly(startAt)) <==> old(status) != Cancelled && now < startAt
      ensures r.Err? ==> r.error in {IsCancelled, TooEarly(startAt), AlreadyEnded(endAt)}
    {
      if status == Cancelled {
        return Err(IsCancelled);
      }
      if now < startAt {
        return Err(TooEarly(startAt));
      }
      if status == Closed || status == Won || status == Unsold {
        return Err(AlreadyEnded(endAt));
      }
      if now >= endAt {
        status := Closed;
        return Err(AlreadyEnded(endAt));
      }
      if status == Draft {
        status := Active;
      }
      r := Ok(());
    }

    method PlaceBid(bidder: string, amount: int, now: int) returns (r: Verdict)
      modifies this
      ensures (View(), r) == old(View()).PlaceBid(bidder, amount, now)
    {
      var open := EnsureAcceptingBids(now);
      if open.Some? {
        return Err(open.value);
      }
      if bidder == seller {
        return Err(SelfBiddingNotAllowed(bidder));
      }
      if currentHighest.Some? && currentHighest.value.bidder == bidder {
        return Err(SelfBiddingNotAllowed(bidder));
      }
      var minimum := View().MinimumRequired();
      if amount < minimum {
        return Err(BidTooLow(minimum));
      }
      var previous := currentHighest;
      var newBid := Bid(bidder, amount, now);
      currentHighest := Some(newBid);
      var extended := MaybeExtend(now);
      r := Ok(Accepted(newBid, previous, extended, endAt));
    }

    method PlaceProxyBid(bidder: string, max: int, now: int) returns (r: Verdict)
      modifies this
      ensures (View(), r) == old(View()).PlaceProxyBid(bidder, max, now)
    {
      var open := EnsureAcceptingBids(now);
      if open.Some? {
        return Err(open.value);
      }
      if bidder == seller {
        return Err(SelfBiddingNotAllowed(bidder));
      }
      if currentHighest.Some? && currentHighest.value.bidder == bidder {
        var current := currentHighest.value;
        if max < current.amount {
          return Err(BidTooLow(current.amount));
        }
        return Ok(Accepted(current, Some(current), false, endAt));
      }
      var minimum := View().MinimumRequired();
      if max < minimum {
        return Err(BidTooLow(minimum));
      }
      r := PlaceBid(bidder, minimum, now);
    }

    method EnsureAcceptingBids(now: int) returns (e: Option<BidError>)
      modifies this`status
      ensures View() == old(View()).Arrive(now)
      ensures e.None? <==> old(status).CanBid() && startAt <= now < endAt
      ensures e.Some? ==> forall bidder, amount :: old(View()).Objection(bidder, amount, now) == e
    {
      if !status.CanBid() {
        return Some(AuctionNotActive(status));
      }
      if now < startAt {
        return Some(AuctionNotStarted(startAt));
      }
      if now >= endAt {
        status := Closed;
        return Some(AuctionEnded(endAt));
      }
      e := None;
    }

    method MaybeExtend(now: int) returns (extended: bool)
      modifies this`endAt, this`extensions, this`status
      ensures endAt == Max(old(endAt), now + ANTI_SNIPING_EXTENSION_SECS)
      ensures extended <==> old(endAt) <= now + ANTI_SNIPING_WINDOW_SECS
      ensures extensions == old(extensions) + if extended then 1 else 0
      ensures status == if extended then old(status).AfterExtension() else old(status)
    {
      var remaining := SecondsUntil(now, endAt);
      if remaining <= ANTI_SNIPING_WINDOW_SECS {
        endAt := now + ANTI_SNIPING_EXTENSION_SECS;
        extensions := extensions + 1;
        status := status.AfterExtension();
        return true;
      }
      extended := false;
    }

    method DetermineOutcome() returns (o: AuctionOutcome)
      modifies this`status
      ensures o == old(View()).Outcome()
      ensures status == if o.WonOutcome? then Won else Unsold
    {
      status := Closed;
      if currentHighest.Some? && currentHighest.value.amount >= reserve {
        status := Won;
        return WonOutcome;
      }
      status := Unsold;
      o := UnsoldOutcome;
    }
  }
}
