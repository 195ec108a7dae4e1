/** When the automatic counter comes, stays silent, or is refused by the session it bids in. */
module CounterPlan {
  import opened Wrappers
  import opened AuctionSession
  import opened BidTable
  import opened ProxyTable
  import opened HoldLedger
  import opened BidValidation
  import opened AuctionStore
  import opened StoreInvariant

  /** A store as the caller's persisted bid leaves it: the newest row is the caller's, placed at `time`. */
  predicate JustLed(s: Store, time: int) {
    && s.bids != [] && Last(s.bids).time == time
    && s.listing.status in {Active, Extended}
    && time + ANTI_SNIPING_EXTENSION_SECS <= s.listing.endTime
    && (s.hasWallet ==> IsLive(s.holds, Last(s.bids).hold))
  }

  lemma JustLedHasRows(s: Store, time: int)
    requires JustLed(s, time)
    ensures s.bids != []
  {
  }

  lemma PersistedIsJustLed(s: Store, r: Request, row: BidRow, s': Store)
    requires Persisted(s, r, row, s')
    ensures JustLed(s', r.time)
  {
  }

  /** What the counter plans: a higher amount one second later, as a raise of the newest row or as a bid that may
      lead. */
  lemma PlannedCounter(s: Store, time: int)
    requires Core(s) && JustLed(s, time) && PlanCounter(s, time).Counter?
    ensures var p := PlanCounter(s, time);
            && p.current == Last(s.bids)
            && p.target > Last(s.bids).amount
            && p.time == time + 1
            && p.endTime == Max(s.listing.endTime, p.time + ANTI_SNIPING_EXTENSION_SECS)
            && p.status in {Active, Extended}
            && (!p.Raises() ==> CanLead(s, p.bidder, p.target, p.time))
  {
    hide Rising, DistinctIds, HoldsOk, OutbidOk, LatestEnd, DistinctBidders, JobOk;
    WinnerIsNewest(s.listing.terms, s.bids);
    assert Last(s.bids) in s.bids;
    assert Top(s.proxies) in s.proxies;
  }

  // ----- the decision, from the maxima and the price alone

  /** The top proxy can afford a full increment over the price. */
  predicate Able(ps: seq<ProxyRow>, price: int, increment: int) {
    ps != [] && price + increment <= Top(ps).max
  }

  /** How far the best other maximum lies above the price; nobody else counts as exactly at the price. */
  function RivalGap(ps: seq<ProxyRow>, price: int): int
    requires ps != []
  {
    var rival := CompetitorCap(ps, Top(ps).bidder);
    if rival.Some? then rival.value - price else 0
  }

  predicate TopLeads(ps: seq<ProxyRow>, leader: string)
    requires ps != []
  {
    Top(ps).bidder == leader
  }

  /** Trailing, an able top proxy counters once the best other maximum reaches the price; leading, it raises its own bid
      as soon as that maximum is within an increment. */
  predicate CounterComes(ps: seq<ProxyRow>, leader: string, price: int, increment: int) {
    && Able(ps, price, increment)
    && if TopLeads(ps, leader) then -increment < RivalGap(ps, price) else 0 <= RivalGap(ps, price)
  }

  /** Trailing, with the best other maximum less than an increment below the price. */
  predicate CounterRefused(ps: seq<ProxyRow>, leader: string, price: int, increment: int) {
    Able(ps, price, increment) && !TopLeads(ps, leader) && -increment < RivalGap(ps, price) < 0
  }

  /** After a bid has led, the plan is a counter, a bid the session refuses as too low, or nothing, exactly by how the
      maxima lie to the price. */
  lemma CounterPlanIff(s: Store, time: int)
    requires Core(s) && JustLed(s, time)
    ensures var p, newest, increment := PlanCounter(s, time), Last(s.bids), s.listing.terms.increment;
            && (p.Counter? <==> CounterComes(s.proxies, newest.bidder, newest.amount, increment))
            && (p.Blocked? <==> CounterRefused(s.proxies, newest.bidder, newest.amount, increment))
            && (p.Counter? ==> (p.Raises() <==> TopLeads(s.proxies, newest.bidder)))
            && (p.Blocked? ==> p.error == BidTooLow(newest.amount + increment))
  {
    hide Core, Rising, DistinctIds, CompetitorCap, Top, Winner;
    ReadLeader(s);
  }

  lemma ReadLeader(s: Store)
    requires Core(s) && s.bids != []
    ensures Winner(s.bids) == Some(Last(s.bids)) && 0 < Last(s.bids).amount
    ensures s.listing.terms.startTime <= Last(s.bids).time
    ensures 0 <= s.listing.terms.startTime && 0 < s.listing.terms.increment && 0 < s.listing.terms.startingPrice
    ensures s.proxies != [] ==> Top(s.proxies).bidder != s.listing.terms.seller
  {
    hide HoldsOk, OutbidOk, LatestEnd, JobOk, CompetitorCap, Rising, DistinctIds, DistinctBidders;
    WinnerIsNewest(s.listing.terms, s.bids);
    assert Last(s.bids) in s.bids;
    if s.proxies != [] { assert Top(s.proxies) in s.proxies; }
  }

  /**
   * Who counters and at what price, by the maxima alone: the senior maximum, never above itself; against nobody else's
   * maximum one increment over the price; otherwise an increment over every other maximum, as far as its own reaches,
   * and never more than an increment over all of them.
   */
  predicate PricedBy(ps: seq<ProxyRow>, bidder: string, amount: int, price: int, increment: int) {
    exists top <- ps | Senior(ps, top) ::
      && bidder == top.bidder && amount <= top.max
      && if forall q <- ps :: q.bidder == bidder then amount == Min(top.max, price + increment)
         else
           && (amount == top.max || forall q <- ps | q.bidder != bidder :: q.max + increment <= amount)
           && exists q <- ps :: q.bidder != bidder && amount <= q.max + increment
  }

  lemma CounterIsPriced(s: Store, time: int)
    requires Core(s) && JustLed(s, time) && PlanCounter(s, time).Counter?
    ensures var p := PlanCounter(s, time);
            PricedBy(s.proxies, p.bidder, p.target, Last(s.bids).amount, s.listing.terms.increment)
  {
    hide RowsOk, CacheNotAbove, StatusOk, Winner, Top, CompetitorCap, DistinctBidders, Senior;
    WinnerIsNewest(s.listing.terms, s.bids);
    TopIsSeniorIff(s.proxies, Top(s.proxies));
  }
}
