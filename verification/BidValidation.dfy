/** The listing row, the four bid policies, and their chain. */
module BidValidation {
  import opened Wrappers
  import opened AuctionSession
  import opened BidTable
  import opened BidCursor

  /** The columns of a listing that no call changes. */
  datatype Terms = Terms(seller: string, startingPrice: int, increment: int, reserve: int, startTime: int)

  datatype Listing = Listing(terms: Terms, endTime: int, status: Status, cachedHighest: Option<int>)

  /** The cast from a signed to an unsigned 64-bit integer. */
  function AsU64(n: int): int { if n < 0 then n + 2 * I64_LIMIT else n }

  /** The domain session a listing row and its winning bid stand for. */
  function ToSession(l: Listing, winner: Option<BidRow>): Session {
    Session(l.terms.seller, AsU64(l.terms.startingPrice), AsU64(l.terms.increment), AsU64(l.terms.reserve),
            AsU64(l.terms.startTime), AsU64(l.endTime), l.status,
            if winner.Some? then Some(Bid(winner.value.bidder, AsU64(winner.value.amount), AsU64(winner.value.time)))
            else None,
            0)
  }

  datatype Context = Context(listing: Listing, bidder: string, time: int, amount: int, winner: Option<BidRow>)

  function TimePolicy(l: Listing, time: int): Option<BidError> {
    if !l.status.CanBid() then Some(AuctionNotActive(l.status))
    else if time < l.terms.startTime then Some(AuctionNotStarted(AsU64(l.terms.startTime)))
    else if l.endTime <= time then Some(AuctionEnded(AsU64(l.endTime)))
    else None
  }

  function IdentityPolicy(l: Listing, bidder: string, winner: Option<BidRow>): Option<BidError> {
    if bidder == l.terms.seller then Some(SelfBiddingNotAllowed(bidder))
    else if winner.Some? && winner.value.bidder == bidder then Some(SelfBiddingNotAllowed(bidder))
    else None
  }

  function AmountPolicy(l: Listing, amount: int, winner: Option<BidRow>): Option<BidError> {
    var minimum := if winner.Some? then winner.value.amount + l.terms.increment else l.terms.startingPrice;
    if amount < minimum then Some(BidTooLow(AsU64(minimum))) else None
  }

  function WalletPolicy(amount: int): Option<BidError> {
    if amount <= 0 then Some(BidTooLow(1)) else None
  }

  datatype Link = TimeLink | IdentityLink | AmountLink | WalletLink

  function Check(link: Link, c: Context): Option<BidError> {
    match link
    case TimeLink => TimePolicy(c.listing, c.time)
    case IdentityLink => IdentityPolicy(c.listing, c.bidder, c.winner)
    case AmountLink => AmountPolicy(c.listing, c.amount, c.winner)
    case WalletLink => WalletPolicy(c.amount)
  }

  const STANDARD_BID := [TimeLink, IdentityLink, AmountLink, WalletLink]

  /** The first objection along a chain of links. */
  function Validate(links: seq<Link>, c: Context): (r: Option<BidError>)
    ensures r.None? <==> forall link <- links :: Check(link, c).None?
  {
    if links == [] then None
    else match Check(links[0], c)
      case Some(e) => Some(e)
      case None => Validate(links[1..], c)
  }

  lemma ValidateStep(link: Link, rest: seq<Link>, c: Context)
    ensures Validate([link] + rest, c) == if Check(link, c).Some? then Check(link, c) else Validate(rest, c)
  {
    assert ([link] + rest)[1..] == rest;
  }

  lemma ChainUnfolds(c: Context, tail: seq<Link>)
    ensures Validate([TimeLink, IdentityLink, AmountLink] + tail, c) ==
              if Check(TimeLink, c).Some? then Check(TimeLink, c)
              else if Check(IdentityLink, c).Some? then Check(IdentityLink, c)
              else if Check(AmountLink, c).Some? then Check(AmountLink, c)
              else Validate(tail, c)
  {
    hide Validate, Check;
    ValidateStep(AmountLink, tail, c);
    ValidateStep(IdentityLink, [AmountLink] + tail, c);
    ValidateStep(TimeLink, [IdentityLink] + ([AmountLink] + tail), c);
    assert [TimeLink] + ([IdentityLink] + ([AmountLink] + tail)) == [TimeLink, IdentityLink, AmountLink] + tail;
  }

  lemma StandardChainUnfolds(c: Context)
    ensures Validate(STANDARD_BID, c) ==
              if Check(TimeLink, c).Some? then Check(TimeLink, c)
              else if Check(IdentityLink, c).Some? then Check(IdentityLink, c)
              else if Check(AmountLink, c).Some? then Check(AmountLink, c)
              else Check(WalletLink, c)
  {
    ChainUnfolds(c, [WalletLink]);
    ValidateStep(WalletLink, [], c);
    assert [WalletLink] + [] == [WalletLink];
    assert [TimeLink, IdentityLink, AmountLink] + [WalletLink] == STANDARD_BID;
  }

  /** A row as creation and bidding leave it: positive prices, times and amounts that fit the signed type. */
  predicate WellFormed(l: Listing, winner: Option<BidRow>) {
    && 0 < l.terms.startingPrice && 0 < l.terms.increment && 0 <= l.terms.reserve
    && 0 <= l.terms.startTime < I64_LIMIT && 0 <= l.endTime < I64_LIMIT
    && (winner.Some? ==>
          0 <= winner.value.amount && 0 <= winner.value.time && IsI64(winner.value.amount + l.terms.increment))
    && l.terms.startingPrice < I64_LIMIT
  }

  /** A negative time always reads as far future after the cast; a negative amount matters once it is the next
      question. */
  predicate CastChangesVerdict(c: Context) {
    && c.listing.status.CanBid()
    && (|| c.time < 0
        || (c.amount < 0 && TimePolicy(c.listing, c.time).None? && IdentityPolicy(c.listing, c.bidder, c.winner).None?))
  }

  /** The chain and the session give the same verdict and the same first error, except where a negative input is
      cast. */
  lemma ChainAgreesWithSessionIff(c: Context)
    requires WellFormed(c.listing, c.winner) && IsI64(c.amount) && IsI64(c.time)
    ensures Validate(STANDARD_BID, c)
            == ToSession(c.listing, c.winner).Objection(c.bidder, AsU64(c.amount), AsU64(c.time))
            <==> !CastChangesVerdict(c)
  {
    StandardChainUnfolds(c);
  }

  /** The wallet link never decides: an amount the other links pass is positive already. */
  lemma WalletLinkNeverFires(c: Context)
    requires WellFormed(c.listing, c.winner)
    ensures Validate(STANDARD_BID, c) == Validate([TimeLink, IdentityLink, AmountLink], c)
    ensures Validate(STANDARD_BID, c).None? ==> 0 < c.amount && c.listing.terms.startTime <= c.time < c.listing.endTime
  {
    StandardChainUnfolds(c);
    ChainUnfolds(c, []);
    assert [TimeLink, IdentityLink, AmountLink] + [] == [TimeLink, IdentityLink, AmountLink];
  }

  /** A bid the chain passes is never rejected by the session. */
  lemma PassedBidIsTaken(c: Context)
    requires WellFormed(c.listing, c.winner)
    requires Validate(STANDARD_BID, c).None?
    ensures ToSession(c.listing, c.winner).Takes(c.bidder, AsU64(c.amount), AsU64(c.time))
  {
    WalletLinkNeverFires(c);
    StandardChainUnfolds(c);
  }
}
