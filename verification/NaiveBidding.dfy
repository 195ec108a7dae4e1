/** The history-scanning auction, and exactly when the cached-leader session behaves as it does. */
module NaiveBidding {
  import opened Wrappers
  import opened AuctionSession

  const MAX_EXTENSIONS: nat := 3

  /** The naive auction as a value; its "ENDED" status is `Closed`. */
  datatype Naive = Naive(
    seller: string, startingPrice: int, increment: int, reserve: int,
    startAt: int, endAt: int, status: Status, bids: seq<Bid>, extensions: nat)
  {
    function MinimumRequired(): int {
      match Highest(bids)
      case Some(bid) => bid.amount + increment
      case None => startingPrice
    }

    predicate Takes(bidder: string, amount: int, now: int) {
      status.CanBid() && startAt <= now < endAt && bidder != seller && MinimumRequired() <= amount
    }

    function PlaceBid(bidder: string, amount: int, now: int): (r: (Naive, bool))
      ensures r.1 <==> Takes(bidder, amount, now)
      ensures r.1 ==> r.0.bids == bids + [Bid(bidder, amount, now)]
      ensures r.0.extensions <= Max(extensions, MAX_EXTENSIONS)
    {
      if status.CanBid() && startAt <= now && endAt <= now then
        (this.(status := Closed), false)
      else if Takes(bidder, amount, now) then
        var grown := this.(bids := bids + [Bid(bidder, amount, now)]);
        if endAt - now <= 120 && extensions < MAX_EXTENSIONS then
          (grown.(endAt := now + 120, extensions := extensions + 1, status := Extended), true)
        else
          (grown, true)
      else
        (this, false)
    }

    function Outcome(): AuctionOutcome {
      var highest := Highest(bids);
      if highest.Some? && reserve <= highest.value.amount then WonOutcome else UnsoldOutcome
    }
  }

  /** The highest bid of a history; among equals the latest, as the iterator's `max_by_key` picks. */
  function Highest(bids: seq<Bid>): (r: Option<Bid>)
    ensures r.None? <==> bids == []
    ensures r.Some? ==> r.value in bids && forall b <- bids :: b.amount <= r.value.amount
  {
    if bids == [] then None
    else
      var last := bids[|bids| - 1];
      var before := Highest(bids[..|bids| - 1]);
      assert bids == bids[..|bids| - 1] + [last];
      if before.Some? && last.amount < before.value.amount then before else Some(last)
  }

  /** In a history whose amounts never fall, the scan returns the last entry. */
  predicate NeverFalls(bids: seq<Bid>) {
    forall i, j | 0 <= i < j < |bids| :: bids[i].amount <= bids[j].amount
  }

  lemma ScanFindsLast(bids: seq<Bid>)
    requires bids != [] && NeverFalls(bids)
    ensures Highest(bids) == Some(bids[|bids| - 1])
  {
    var init := bids[..|bids| - 1];
    if init != [] {
      var i :| 0 <= i < |init| && init[i] == Highest(init).value;
      assert bids[i].amount <= bids[|bids| - 1].amount;
    }
  }

  class NaiveAuction {
    const seller: string
    const startingPrice: int
    const increment: int
    const reserve: int
    const startAt: int
    var endAt: int
    var status: Status
    var bids: seq<Bid>
    var extensions: nat

    function View(): Naive
      reads this
    {
      Naive(seller, startingPrice, increment, reserve, startAt, endAt, status, bids, extensions)
    }

    constructor (seller: string, startingPrice: int, increment: int, reserve: int, startAt: int, endAt: int)
      ensures View() == Naive(seller, startingPrice, increment, reserve, startAt, endAt, Active, [], 0)
    {
      this.seller, this.startingPrice, this.increment, this.reserve := seller, startingPrice, increment, reserve;
      this.startAt, this.endAt, this.status, this.bids, this.extensions := startAt, endAt, Active, [], 0;
    }

    method ScanHighest() returns (r: Option<Bid>)
      ensures r == Highest(bids)
    {
      r := None;
      for i := 0 to |bids|
        invariant r == Highest(bids[..i])
      {
        assert bids[..i + 1][..i] == bids[..i];
        if r.None? || r.value.amount <= bids[i].amount {
          r := Some(bids[i]);
        }
      }
      assert bids[..|bids|] == bids;
    }

    method PlaceBid(bidder: string, amount: int, now: int) returns (accepted: bool)
      modifies this
      ensures (View(), accepted) == old(View()).PlaceBid(bidder, amount, now)
    {
      if !status.CanBid() {
        return false;
      }
      if now < startAt {
        return false;
      }
      if now >= endAt {
        status := Closed;
        return false;
      }
      if bidder == seller {
        return false;
      }
      var highest := ScanHighest();
      var minimum := if highest.Some? then highest.value.amount + increment else startingPrice;
      if amount < minimum {
        return false;
      }
      bids := bids + [Bid(bidder, amount, now)];
      var remaining := SecondsUntil(now, endAt);
      if remaining <= 120 && extensions < MAX_EXTENSIONS {
        endAt := now + 120;
        extensions := extensions + 1;
        status := Extended;
      }
      accepted := true;
    }

    method DetermineOutcome() returns (o: AuctionOutcome)
      ensures o == View().Outcome()
    {
      var highest := ScanHighest();
      o := if highest.Some? && highest.value.amount >= reserve then WonOutcome else UnsoldOutcome;
    }
  }

  // ----- agreement with the cached-leader session

  /** What a caller can see of the two auctions is the same. */
  predicate Same(n: Naive, a: Session) {
    n.endAt == a.endAt && n.status == a.status && Highest(n.bids) == a.highest && n.Outcome() == a.Outcome()
  }

  /** Same rules, same view, and counters in step up to the naive cap. */
  predicate InStep(n: Naive, a: Session) {
    && n.seller == a.seller && n.startingPrice == a.startingPrice && n.increment == a.increment
    && n.reserve == a.reserve && n.startAt == a.startAt && 0 <= n.increment
    && Same(n, a)
    && NeverFalls(n.bids)
    && n.extensions == Min(a.extensions, MAX_EXTENSIONS)
    && (0 < n.extensions ==> n.status != Active)
  }

  /** The leader raises its own bid: only the naive auction takes it. */
  predicate SelfRaise(a: Session, o: Offer) {
    && a.status.CanBid() && a.startAt <= o.now < a.endAt
    && o.bidder != a.seller && a.IsLeader(o.bidder) && a.MinimumRequired() <= o.amount
  }

  /** A late bid after three extensions that would still move the end: only the session extends. */
  predicate CappedExtension(a: Session, o: Offer) {
    a.Takes(o.bidder, o.amount, o.now) && 3 <= a.extensions && a.endAt - o.now < 120
  }

  predicate Harmless(a: Session, o: Offer) { !SelfRaise(a, o) && !CappedExtension(a, o) }

  lemma TakenBidIsHighest(n: Naive, o: Offer)
    requires NeverFalls(n.bids) && 0 <= n.increment && n.MinimumRequired() <= o.amount
    ensures var grown := n.bids + [Bid(o.bidder, o.amount, o.now)];
            NeverFalls(grown) && Highest(grown) == Some(Bid(o.bidder, o.amount, o.now))
  {
    if n.bids != [] { ScanFindsLast(n.bids); }
    ScanFindsLast(n.bids + [Bid(o.bidder, o.amount, o.now)]);
  }

  /** One bid keeps the two auctions alike just when it is neither a self-raise nor past the extension cap. */
  lemma StepAgreesIff(n: Naive, a: Session, o: Offer)
    requires InStep(n, a)
    ensures var (n', taken) := n.PlaceBid(o.bidder, o.amount, o.now);
            var (a', verdict) := a.PlaceBid(o.bidder, o.amount, o.now);
            && ((taken == verdict.Ok? && Same(n', a')) <==> Harmless(a, o))
            && (Harmless(a, o) ==> InStep(n', a'))
  {
    hide Highest, NeverFalls;
    if n.Takes(o.bidder, o.amount, o.now) {
      TakenBidIsHighest(n, o);
    }
  }

  predicate AllHarmless(a: Session, offers: seq<Offer>)
    decreases offers
  {
    offers == [] ||
    (Harmless(a, offers[0]) &&
     AllHarmless(a.PlaceBid(offers[0].bidder, offers[0].amount, offers[0].now).0, offers[1..]))
  }

  /** Along the whole sequence both auctions give the same verdicts and show the same state and outcome. */
  predicate AgreeThroughout(n: Naive, a: Session, offers: seq<Offer>)
    decreases offers
  {
    offers == [] ||
    var (n', taken) := n.PlaceBid(offers[0].bidder, offers[0].amount, offers[0].now);
    var (a', verdict) := a.PlaceBid(offers[0].bidder, offers[0].amount, offers[0].now);
    taken == verdict.Ok? && Same(n', a') && AgreeThroughout(n', a', offers[1..])
  }

  /** Over every bid sequence: the fast session refines the naive auction exactly on the harmless ones. */
  lemma {:induction false} FastRefinesNaiveIff(n: Naive, a: Session, offers: seq<Offer>)
    requires InStep(n, a)
    ensures AgreeThroughout(n, a, offers) <==> AllHarmless(a, offers)
    decreases offers
  {
    if offers != [] {
      var o := offers[0];
      StepAgreesIff(n, a, o);
      if Harmless(a, o) {
        var n', a' := n.PlaceBid(o.bidder, o.amount, o.now).0, a.PlaceBid(o.bidder, o.amount, o.now).0;
        FastRefinesNaiveIff(n', a', offers[1..]);
      }
    }
  }

  /** No bid comes from the bidder who is leading when it arrives. */
  predicate NoLeaderBids(a: Session, offers: seq<Offer>)
    decreases offers
  {
    offers == [] ||
    (!a.IsLeader(offers[0].bidder) &&
     NoLeaderBids(a.PlaceBid(offers[0].bidder, offers[0].amount, offers[0].now).0, offers[1..]))
  }

  /** How many accepted bids of the sequence fall inside the anti-sniping window. */
  function LateBids(a: Session, offers: seq<Offer>): nat
    decreases offers
  {
    if offers == [] then 0
    else
      var o := offers[0];
      (if a.Takes(o.bidder, o.amount, o.now) && a.endAt - o.now <= ANTI_SNIPING_WINDOW_SECS then 1 else 0)
      + LateBids(a.PlaceBid(o.bidder, o.amount, o.now).0, offers[1..])
  }

  lemma {:induction false} FewLateBidsAreHarmless(a: Session, offers: seq<Offer>)
    requires NoLeaderBids(a, offers)
    requires a.extensions + LateBids(a, offers) <= MAX_EXTENSIONS
    ensures AllHarmless(a, offers)
    decreases offers
  {
    if offers != [] {
      var o := offers[0];
      FewLateBidsAreHarmless(a.PlaceBid(o.bidder, o.amount, o.now).0, offers[1..]);
    }
  }

  /** From one fresh active auction, sequences without leader bids and with at most three late bids agree throughout. */
  lemma NaiveAndFastAgree(seller: string, startingPrice: int, increment: nat, reserve: int, startAt: int, endAt: int,
                          offers: seq<Offer>)
    requires var a := Session(seller, startingPrice, increment, reserve, startAt, endAt, Active, None, 0);
             NoLeaderBids(a, offers) && LateBids(a, offers) <= 3
    ensures AgreeThroughout(Naive(seller, startingPrice, increment, reserve, startAt, endAt, Active, [], 0),
                            Session(seller, startingPrice, increment, reserve, startAt, endAt, Active, None, 0), offers)
  {
    var n := Naive(seller, startingPrice, increment, reserve, startAt, endAt, Active, [], 0);
    var a := Session(seller, startingPrice, increment, reserve, startAt, endAt, Active, None, 0);
    FewLateBidsAreHarmless(a, offers);
    FastRefinesNaiveIff(n, a, offers);
  }
}
