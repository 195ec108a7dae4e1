/** The standing maxima of one auction and how the top one is found. */
module ProxyTable {
  import opened Wrappers
  import opened BidTable

  datatype ProxyRow = ProxyRow(bidder: string, max: int, createdAt: int)

  /** Listing order: highest maximum, then oldest, then smallest bidder id. */
  predicate ProxyBefore(a: ProxyRow, b: ProxyRow) {
    || b.max < a.max
    || (a.max == b.max && a.createdAt < b.createdAt)
    || (a.max == b.max && a.createdAt == b.createdAt && TextBefore(a.bidder, b.bidder))
  }

  /** One row per bidder: the table's primary key. */
  predicate DistinctBidders(ps: seq<ProxyRow>) {
    forall i, j | 0 <= i < j < |ps| :: ps[i].bidder != ps[j].bidder
  }

  predicate Knows(ps: seq<ProxyRow>, bidder: string) { exists p <- ps :: p.bidder == bidder }

  /** Set a bidder's maximum; the row keeps its creation time if it exists. */
  function UpsertMax(ps: seq<ProxyRow>, bidder: string, max: int, now: int): (r: seq<ProxyRow>)
    ensures Knows(r, bidder)
    ensures forall p <- r :: p in ps || p.bidder == bidder
    ensures forall p <- ps :: p.bidder != bidder ==> p in r
    ensures forall p <- r :: p.bidder == bidder && DistinctBidders(ps) ==> p.max == max
  {
    if ps == [] then
      var row := ProxyRow(bidder, max, now);
      assert row in [row];
      [row]
    else if ps[0].bidder == bidder then
      var r := [ps[0].(max := max)] + ps[1..];
      assert r[0] in r;
      r
    else
      var rest := UpsertMax(ps[1..], bidder, max, now);
      var p :| p in rest && p.bidder == bidder;
      assert p in [ps[0]] + rest;
      [ps[0]] + rest
  }

  function DeleteFor(ps: seq<ProxyRow>, bidder: string): (r: seq<ProxyRow>)
    ensures forall p :: p in r <==> p in ps && p.bidder != bidder
  {
    if ps == [] then []
    else if ps[0].bidder == bidder then DeleteFor(ps[1..], bidder)
    else [ps[0]] + DeleteFor(ps[1..], bidder)
  }

  /** The first row of the listing. */
  function Top(ps: seq<ProxyRow>): (r: ProxyRow)
    requires ps != []
    ensures r in ps
    ensures forall p <- ps :: p.max <= r.max
  {
    if |ps| == 1 then ps[0]
    else
      var rest := Top(ps[1..]);
      if ProxyBefore(rest, ps[0]) then rest else ps[0]
  }

  /** The highest maximum among everyone but one bidder. */
  function CompetitorCap(ps: seq<ProxyRow>, bidder: string): (r: Option<int>)
    ensures r.None? <==> forall p <- ps :: p.bidder == bidder
    ensures r.Some? ==> forall p <- ps :: p.bidder != bidder ==> p.max <= r.value
    ensures r.Some? ==> exists p <- ps :: p.bidder != bidder && p.max == r.value
  {
    if ps == [] then None
    else
      var rest := CompetitorCap(ps[1..], bidder);
      if ps[0].bidder == bidder then rest
      else Some(if rest.Some? then Max(ps[0].max, rest.value) else ps[0].max)
  }

  lemma {:induction false} UpsertKeepsBiddersDistinct(ps: seq<ProxyRow>, bidder: string, max: int, now: int)
    requires DistinctBidders(ps)
    ensures DistinctBidders(UpsertMax(ps, bidder, max, now))
  {
    if ps != [] && ps[0].bidder != bidder {
      UpsertKeepsBiddersDistinct(ps[1..], bidder, max, now);
      forall p <- UpsertMax(ps[1..], bidder, max, now) ensures p.bidder != ps[0].bidder {
        assert p in ps[1..] || p.bidder == bidder;
      }
    }
  }

  /** A bidder that changes its maximum keeps its place among equals: the row's creation time stays. */
  lemma {:induction false} UpsertKeepsSeniority(ps: seq<ProxyRow>, p: ProxyRow, max: int, now: int)
    requires DistinctBidders(ps) && p in ps
    ensures p.(max := max) in UpsertMax(ps, p.bidder, max, now)
    ensures |UpsertMax(ps, p.bidder, max, now)| == |ps|
  {
    if ps[0].bidder == p.bidder {
      assert p == ps[0];
      assert UpsertMax(ps, p.bidder, max, now)[0] == p.(max := max);
    } else {
      UpsertKeepsSeniority(ps[1..], p, max, now);
    }
  }

  lemma {:induction false} DeleteKeepsBiddersDistinct(ps: seq<ProxyRow>, bidder: string)
    requires DistinctBidders(ps)
    ensures DistinctBidders(DeleteFor(ps, bidder))
  {
    if ps != [] {
      DeleteKeepsBiddersDistinct(ps[1..], bidder);
      forall p <- DeleteFor(ps[1..], bidder) ensures p.bidder != ps[0].bidder {
        assert p in ps[1..];
      }
    }
  }

  /** The top row really comes first: no other row precedes it in the listing. */
  lemma {:induction false} NothingPrecedesTop(ps: seq<ProxyRow>, p: ProxyRow)
    requires p in ps
    ensures !ProxyBefore(p, Top(ps))
  {
    TextOrderIsTotal(p.bidder, p.bidder);
    if 1 < |ps| {
      var rest := Top(ps[1..]);
      TextOrderIsTotal(rest.bidder, ps[0].bidder);
      if p in ps[1..] {
        NothingPrecedesTop(ps[1..], p);
        if !ProxyBefore(rest, ps[0]) && ProxyBefore(p, ps[0]) {
          TextOrderIsTotal(p.bidder, rest.bidder);
          if TextBefore(p.bidder, ps[0].bidder) && TextBefore(ps[0].bidder, rest.bidder) {
            TextOrderIsTransitive(p.bidder, ps[0].bidder, rest.bidder);
          }
        }
      }
    }
  }

  /** Which maximum comes first, by the columns alone: none is higher, among the highest none is older, and among those
      of one age none has an earlier bidder. */
  predicate Senior(ps: seq<ProxyRow>, p: ProxyRow) {
    && p in ps
    && (forall q <- ps :: q.max <= p.max)
    && (forall q <- ps :: q.max == p.max ==> p.createdAt <= q.createdAt)
    && (forall q <- ps :: q.max == p.max && q.createdAt == p.createdAt ==>
          q.bidder == p.bidder || TextBefore(p.bidder, q.bidder))
  }

  /** The top row is the senior one; with one row per bidder no other is. */
  lemma TopIsSeniorIff(ps: seq<ProxyRow>, p: ProxyRow)
    requires ps != [] && DistinctBidders(ps)
    ensures Senior(ps, p) <==> p == Top(ps)
  {
    hide Top, DistinctBidders;
    forall q <- ps
      ensures q.max == Top(ps).max ==> Top(ps).createdAt <= q.createdAt
      ensures q.max == Top(ps).max && q.createdAt == Top(ps).createdAt ==>
                q.bidder == Top(ps).bidder || TextBefore(Top(ps).bidder, q.bidder)
    {
      NothingPrecedesTop(ps, q);
      TextOrderIsTotal(q.bidder, Top(ps).bidder);
    }
    if Senior(ps, p) {
      TextOrderIsTotal(p.bidder, Top(ps).bidder);
      OneRowPerBidder(ps, p, Top(ps));
    }
  }

  lemma OneRowPerBidder(ps: seq<ProxyRow>, a: ProxyRow, b: ProxyRow)
    requires DistinctBidders(ps) && a in ps && b in ps && a.bidder == b.bidder
    ensures a == b
  {
  }

  /** The maxima after one is set: the others as they were, and the bidder's own at the new amount, dated when the
      bidder first set one. */
  lemma {:induction false} UpsertSetsExactly(ps: seq<ProxyRow>, bidder: string, max: int, now: int, p: ProxyRow)
    requires DistinctBidders(ps)
    ensures p in UpsertMax(ps, bidder, max, now) <==>
              || (p.bidder != bidder && p in ps)
              || (p.bidder == bidder && p.max == max
                  && if Knows(ps, bidder) then exists q <- ps :: q.bidder == bidder && q.createdAt == p.createdAt
                     else p.createdAt == now)
  {
    if ps == [] {
    } else if ps[0].bidder == bidder {
      assert ps[0] in ps;
      forall q <- ps | q.bidder == bidder ensures q == ps[0] {}
    } else {
      UpsertSetsExactly(ps[1..], bidder, max, now, p);
      assert ps == [ps[0]] + ps[1..];
    }
  }
}
