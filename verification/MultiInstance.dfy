/** Standard bids from many service instances: each call reads, checks, inserts and updates in steps that interleave
    freely. */
module MultiInstance {
  import opened Wrappers
  import opened AuctionSession
  import opened BidTable
  import opened BidValidation
  import opened AuctionStore

  datatype Call = Call(id: string, bidder: string, amount: int, time: int)

  /** How far a call has got, with what it has read. */
  datatype Phase =
    | Arrived
    | Unmatched
    | HasListing(listing: Listing)
    | Checked(listing: Listing)
    | Priced(listing: Listing, accepted: Accepted, status: Status)
    | Inserted(listing: Listing, row: nat, accepted: Accepted, status: Status)
    | Finished

  /** The shared tables and the calls in flight; besides, which rows have had their listing update, and which end time
      each row's call computed for it. */
  datatype World = World(listing: Listing, rows: seq<BidRow>, calls: seq<Call>, phases: seq<Phase>,
                         updated: set<nat>, ends: seq<int>)

  /** The conditional update: it applies only to a lower cached highest. */
  function CompareAndSet(l: Listing, accepted: Accepted, status: Status): Listing {
    if Tops(l, accepted.newHighest.amount)
    then l.(cachedHighest := Some(accepted.newHighest.amount), endTime := accepted.newEndAt, status := status)
    else l
  }

  /** The next database access of one call; `ok` is whether an insert goes through. */
  function Advance(w: World, i: nat, ok: bool): (r: World)
    requires i < |w.phases| == |w.calls|
    ensures r.calls == w.calls && |r.phases| == |w.phases|
  {
    var c := w.calls[i];
    match w.phases[i]
    case Arrived =>
      w.(phases := w.phases[i := if Matching(w.rows, c.bidder, c.amount, c.time).Some? then Finished else Unmatched])
    case Unmatched => w.(phases := w.phases[i := HasListing(w.listing)])
    case HasListing(l) =>
      var objection := Validate(STANDARD_BID, Context(l, c.bidder, c.time, c.amount, Winner(w.rows)));
      w.(phases := w.phases[i := if objection.Some? then Finished else Checked(l)])
    case Checked(l) =>
      (match ToSession(l, Winner(w.rows)).PlaceBid(c.bidder, AsU64(c.amount), AsU64(c.time))
       case (_, Err(_)) => w.(phases := w.phases[i := Finished])
       case (after, Ok(accepted)) => w.(phases := w.phases[i := Priced(l, accepted, after.status)]))
    case Priced(l, accepted, status) =>
      if !ok || HasId(w.rows, c.id) then w.(phases := w.phases[i := Finished])
      else w.(rows := w.rows + [BidRow(c.id, c.bidder, accepted.newHighest.amount, c.time, None)],
              ends := w.ends + [accepted.newEndAt],
              phases := w.phases[i := Inserted(l, |w.rows|, accepted, status)])
    case Inserted(_, row, accepted, status) =>
      w.(listing := CompareAndSet(w.listing, accepted, status),
         updated := w.updated + {row},
         phases := w.phases[i := Finished])
    case Finished => w
  }

  function Schedule(w: World, turns: seq<(nat, bool)>): (r: World)
    requires |w.phases| == |w.calls| && forall t <- turns :: t.0 < |w.calls|
    ensures r.calls == w.calls && |r.phases| == |w.phases|
    decreases turns
  {
    if turns == [] then w else Schedule(Advance(w, turns[0].0, turns[0].1), turns[1..])
  }

  /** The cached highest is the maximum over exactly the rows whose update has run. */
  predicate CacheIsMax(cached: Option<int>, rows: seq<BidRow>, updated: set<nat>) {
    && (forall k <- updated :: k < |rows| && cached.Some? && rows[k].amount <= cached.value)
    && (cached.Some? ==> exists k <- updated :: k < |rows| && rows[k].amount == cached.value)
  }

  /** Row `k` is in the table but its call has not yet reached its update. */
  predicate Pending(w: World, k: nat) {
    exists i | 0 <= i < |w.phases| :: w.phases[i].Inserted? && w.phases[i].row == k
  }

  predicate InOrder(w: World) {
    && |w.phases| == |w.calls|
    && CacheIsMax(w.listing.cachedHighest, w.rows, w.updated)
    && (forall i | 0 <= i < |w.phases| && w.phases[i].Inserted? ::
          w.phases[i].row < |w.rows| && w.rows[w.phases[i].row].amount == w.phases[i].accepted.newHighest.amount)
    && (forall k | 0 <= k < |w.rows| :: k in w.updated || Pending(w, k))
    && DistinctIds(w.rows)
  }

  predicate NotBelow(a: Option<int>, b: Option<int>) { a.Some? ==> b.Some? && a.value <= b.value }

  lemma StillPending(w: World, w': World, i: nat, k: nat)
    requires |w.phases| == |w'.phases| && i < |w.phases| && Pending(w, k)
    requires forall j | 0 <= j < |w.phases| && j != i :: w'.phases[j] == w.phases[j]
    requires w.phases[i].Inserted? ==> w.phases[i].row != k
    ensures Pending(w', k)
  {
    var j :| 0 <= j < |w.phases| && w.phases[j].Inserted? && w.phases[j].row == k;
    assert w'.phases[j].Inserted?;
  }

  lemma InsertStepKeepsOrder(w: World, i: nat, ok: bool)
    requires InOrder(w) && i < |w.calls| && w.phases[i].Priced?
    ensures InOrder(Advance(w, i, ok)) && Advance(w, i, ok).listing == w.listing
  {
    var w' := Advance(w, i, ok);
    forall k | 0 <= k < |w'.rows| ensures k in w'.updated || Pending(w', k) {
      if k < |w.rows| {
        if k !in w.updated { StillPending(w, w', i, k); }
      } else {
        assert w'.phases[i].Inserted? && w'.phases[i].row == k;
      }
    }
    forall x <- w.rows | w'.rows != w.rows ensures x.id != w.calls[i].id {}
    assert forall k | 0 <= k < |w.rows| :: w'.rows[k] == w.rows[k];
    if w.listing.cachedHighest.Some? {
      var k :| k in w.updated && k < |w.rows| && w.rows[k].amount == w.listing.cachedHighest.value;
      assert w'.rows[k].amount == w.listing.cachedHighest.value;
    }
  }

  lemma UpdateStepKeepsOrder(w: World, i: nat, ok: bool)
    requires InOrder(w) && i < |w.calls| && w.phases[i].Inserted?
    ensures InOrder(Advance(w, i, ok))
    ensures NotBelow(w.listing.cachedHighest, Advance(w, i, ok).listing.cachedHighest)
  {
    var w' := Advance(w, i, ok);
    var mine := w.phases[i].row;
    forall k | 0 <= k < |w'.rows| ensures k in w'.updated || Pending(w', k) {
      if k !in w'.updated { StillPending(w, w', i, k); }
    }
    assert mine in w'.updated && w'.rows[mine].amount == w.phases[i].accepted.newHighest.amount;
    if !Tops(w.listing, w'.rows[mine].amount) {
      var k :| k in w.updated && k < |w.rows| && w.rows[k].amount == w.listing.cachedHighest.value;
      assert k in w'.updated;
    }
  }

  lemma ReadStepKeepsOrder(w: World, i: nat, ok: bool)
    requires InOrder(w) && i < |w.calls| && !w.phases[i].Priced? && !w.phases[i].Inserted?
    ensures InOrder(Advance(w, i, ok)) && Advance(w, i, ok).listing == w.listing
  {
    hide CacheIsMax, Validate, Winner, Matching, ToSession, Pending;
    var w' := Advance(w, i, ok);
    forall k | 0 <= k < |w'.rows| ensures k in w'.updated || Pending(w', k) {
      if k !in w.updated { StillPending(w, w', i, k); }
    }
  }

  /** One access by any call keeps the order and never lowers the cached highest. */
  lemma AdvanceKeepsOrder(w: World, i: nat, ok: bool)
    requires InOrder(w) && i < |w.calls|
    ensures InOrder(Advance(w, i, ok)) && Advance(w, i, ok).calls == w.calls
    ensures NotBelow(w.listing.cachedHighest, Advance(w, i, ok).listing.cachedHighest)
  {
    hide InOrder, Validate, Winner, Matching, ToSession, HasId;
    SizesAgree(w);
    if w.phases[i].Priced? { InsertStepKeepsOrder(w, i, ok); }
    else if w.phases[i].Inserted? { UpdateStepKeepsOrder(w, i, ok); }
    else { ReadStepKeepsOrder(w, i, ok); }
  }

  lemma SizesAgree(w: World)
    requires InOrder(w)
    ensures |w.phases| == |w.calls| && DistinctIds(w.rows)
  {
  }

  lemma {:induction false} ScheduleKeepsOrder(w: World, turns: seq<(nat, bool)>)
    requires InOrder(w) && forall t <- turns :: t.0 < |w.calls|
    ensures InOrder(Schedule(w, turns)) && Schedule(w, turns).calls == w.calls
    ensures NotBelow(w.listing.cachedHighest, Schedule(w, turns).listing.cachedHighest)
    decreases turns
  {
    hide InOrder, Advance;
    SizesAgree(w);
    if turns != [] {
      assert turns[0] in turns;
      AdvanceKeepsOrder(w, turns[0].0, turns[0].1);
      SizesAgree(Advance(w, turns[0].0, turns[0].1));
      ScheduleKeepsOrder(Advance(w, turns[0].0, turns[0].1), turns[1..]);
    }
  }

  function Begin(listing: Listing, calls: seq<Call>): World {
    World(listing, [], calls, seq(|calls|, _ => Arrived), {}, [])
  }

  /** Any number of instances, any interleaving: the cached highest is the maximum of the updated rows throughout,
      and once every call has finished it is the winning row's amount. */
  lemma InstancesConverge(listing: Listing, calls: seq<Call>, turns: seq<(nat, bool)>)
    requires listing.cachedHighest.None? && forall t <- turns :: t.0 < |calls|
    ensures var w := Schedule(Begin(listing, calls), turns);
            && CacheIsMax(w.listing.cachedHighest, w.rows, w.updated)
            && ((forall p <- w.phases :: p.Finished?) ==>
                  w.listing.cachedHighest == if Winner(w.rows).Some? then Some(Winner(w.rows).value.amount) else None)
  {
    hide Schedule, Winner;
    ScheduleKeepsOrder(Begin(listing, calls), turns);
    var w := Schedule(Begin(listing, calls), turns);
    if forall p <- w.phases :: p.Finished? {
      forall k | 0 <= k < |w.rows| ensures k in w.updated {
        NothingPending(w, k);
      }
      FinishedCacheIsWinner(w);
    }
  }

  lemma NothingPending(w: World, k: nat)
    requires forall p <- w.phases :: p.Finished?
    ensures !Pending(w, k)
  {
    assert forall i | 0 <= i < |w.phases| :: w.phases[i] in w.phases;
  }

  lemma FinishedCacheIsWinner(w: World)
    requires InOrder(w) && forall k | 0 <= k < |w.rows| :: k in w.updated
    ensures w.listing.cachedHighest == if Winner(w.rows).Some? then Some(Winner(w.rows).value.amount) else None
  {
    hide Winner, Before;
    if w.rows == [] {
      NoRowsNoWinner();
    } else {
      WinnerIsFirst(w.rows);
      var winner := Winner(w.rows).value;
      var k :| 0 <= k < |w.rows| && w.rows[k] == winner;
      assert k in w.updated;
      var j :| j in w.updated && j < |w.rows| && w.rows[j].amount == w.listing.cachedHighest.value;
      BeforeIsNoLower(winner, w.rows[j]);
      assert w.rows[j] in w.rows;
    }
  }

  lemma BeforeIsNoLower(a: BidRow, b: BidRow)
    ensures Before(a, b) ==> b.amount <= a.amount
  {
  }
}
