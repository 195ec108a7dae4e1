/** Across instances: what a listing's end time owes to whom, and exactly when an update cuts a bid's 120 seconds
    short. */
module MultiInstanceEnds {
  import opened Wrappers
  import opened AuctionSession
  import opened BidTable
  import opened BidValidation
  import S = AuctionStore
  import opened MultiInstance

  // ----- what every call has computed

  /** A call's price is computed from the listing it read: its new end is never before that listing's end. */
  predicate PhaseTimed(terms: Terms, c: Call, p: Phase) {
    match p
    case Arrived => true
    case Unmatched => true
    case Finished => true
    case HasListing(l) => l.terms == terms && 0 <= l.endTime
    case Checked(l) => l.terms == terms && terms.startTime <= c.time < l.endTime && 0 < c.amount
    case Priced(l, accepted, _) =>
      accepted.newEndAt == Max(l.endTime, c.time + ANTI_SNIPING_EXTENSION_SECS) && 0 <= l.endTime
      && 0 < accepted.newHighest.amount
    case Inserted(l, _, accepted, _) =>
      accepted.newEndAt == Max(l.endTime, c.time + ANTI_SNIPING_EXTENSION_SECS) && 0 <= l.endTime
      && 0 < accepted.newHighest.amount
  }

  predicate Timed(w: World) {
    && |w.phases| == |w.calls|
    && 0 < w.listing.terms.startingPrice && 0 < w.listing.terms.increment
    && 0 <= w.listing.terms.startTime && 0 <= w.listing.endTime
    && (forall x <- w.rows :: 0 < x.amount)
    && (forall i | 0 <= i < |w.phases| :: PhaseTimed(w.listing.terms, w.calls[i], w.phases[i]))
  }

  lemma CheckKeepsTimed(w: World, i: nat, ok: bool)
    requires Timed(w) && i < |w.calls| && (w.phases[i].HasListing? || w.phases[i].Checked?)
    ensures PhaseTimed(w.listing.terms, w.calls[i], Advance(w, i, ok).phases[i])
  {
    hide Winner, Validate;
    var c, l := w.calls[i], w.phases[i].listing;
    WinnerIsARow(w.rows);
    StandardChainUnfolds(Context(l, c.bidder, c.time, c.amount, Winner(w.rows)));
  }

  lemma AdvanceKeepsTimed(w: World, i: nat, ok: bool)
    requires Timed(w) && i < |w.calls|
    ensures Timed(Advance(w, i, ok))
  {
    hide Winner, Validate, Matching, ToSession, HasId;
    if w.phases[i].HasListing? || w.phases[i].Checked? {
      hide PhaseTimed;
      CheckKeepsTimed(w, i, ok);
    }
    assert PhaseTimed(w.listing.terms, w.calls[i], w.phases[i]);
  }

  lemma {:induction false} ScheduleKeepsTimed(w: World, turns: seq<(nat, bool)>)
    requires Timed(w) && forall t <- turns :: t.0 < |w.calls|
    ensures Timed(Schedule(w, turns))
    decreases turns
  {
    hide PhaseTimed, Validate, ToSession;
    if turns != [] {
      assert turns[0] in turns;
      AdvanceKeepsTimed(w, turns[0].0, turns[0].1);
      ScheduleKeepsTimed(Advance(w, turns[0].0, turns[0].1), turns[1..]);
    }
  }

  /** What creation guarantees about a listing nobody has bid on. */
  predicate Offered(l: Listing) {
    && 0 < l.terms.startingPrice && 0 < l.terms.increment && 0 <= l.terms.startTime && 0 <= l.endTime
    && l.cachedHighest.None?
  }

  /** In any interleaving, an update moves the end back exactly when it wins and the end has meanwhile moved past
      both what its call had read and 120 seconds after its bid. */
  lemma UpdateShortensAuctionIff(listing: Listing, calls: seq<Call>, turns: seq<(nat, bool)>, i: nat, ok: bool)
    requires Offered(listing) && i < |calls| && forall t <- turns :: t.0 < |calls|
    requires var w := Schedule(Begin(listing, calls), turns);
             |w.phases| == |w.calls| == |calls| && w.phases[i].Inserted?
    ensures var w := Schedule(Begin(listing, calls), turns);
            Advance(w, i, ok).listing.endTime < w.listing.endTime <==>
              && S.Tops(w.listing, w.phases[i].accepted.newHighest.amount)
              && w.phases[i].listing.endTime < w.listing.endTime
              && w.calls[i].time + ANTI_SNIPING_EXTENSION_SECS < w.listing.endTime
  {
    hide Schedule;
    ScheduleKeepsTimed(Begin(listing, calls), turns);
    var w := Schedule(Begin(listing, calls), turns);
    assert PhaseTimed(w.listing.terms, w.calls[i], w.phases[i]);
  }

  // ----- the end belongs to the leader

  /** The end is the one a leading row's call computed, or still the original one. */
  predicate EndIsLeaders(w: World, firstEnd: int) {
    if w.listing.cachedHighest.None? then w.listing.endTime == firstEnd
    else exists k <- w.updated :: k < |w.rows| == |w.ends| && w.rows[k].amount == w.listing.cachedHighest.value
                                  && w.listing.endTime == w.ends[k]
  }

  /** Rows carry their call's time, and what a call in flight will write is what was noted for its row. */
  predicate Noted(w: World) {
    && |w.phases| == |w.calls| && |w.ends| == |w.rows|
    && (forall k <- w.updated :: k < |w.rows|)
    && (forall k | 0 <= k < |w.rows| :: w.rows[k].time + ANTI_SNIPING_EXTENSION_SECS <= w.ends[k])
    && (forall i | 0 <= i < |w.phases| && w.phases[i].Inserted? ::
          var p := w.phases[i];
          && p.row < |w.rows| && w.rows[p.row].time == w.calls[i].time
          && w.rows[p.row].amount == p.accepted.newHighest.amount && w.ends[p.row] == p.accepted.newEndAt)
  }

  lemma AdvanceKeepsNoted(w: World, i: nat, ok: bool)
    requires Timed(w) && Noted(w) && i < |w.calls|
    ensures Noted(Advance(w, i, ok))
  {
    hide Winner, Validate, Matching, ToSession, HasId, S.Tops;
    var w' := Advance(w, i, ok);
    assert PhaseTimed(w.listing.terms, w.calls[i], w.phases[i]);
    assert forall k | 0 <= k < |w.rows| :: w'.rows[k] == w.rows[k] && w'.ends[k] == w.ends[k];
  }

  lemma AdvanceKeepsLeader(w: World, i: nat, ok: bool, firstEnd: int)
    requires Noted(w) && EndIsLeaders(w, firstEnd) && i < |w.calls|
    ensures EndIsLeaders(Advance(w, i, ok), firstEnd)
  {
    hide Winner, Validate, Matching, ToSession, HasId;
    var w' := Advance(w, i, ok);
    assert forall k | 0 <= k < |w.rows| :: w'.rows[k] == w.rows[k] && w'.ends[k] == w.ends[k];
    if w.listing.cachedHighest.Some? {
      var k :| k in w.updated && k < |w.rows| && w.rows[k].amount == w.listing.cachedHighest.value
               && w.listing.endTime == w.ends[k];
      assert k in w'.updated;
    }
    if w.phases[i].Inserted? { assert w.phases[i].row in w'.updated; }
  }

  lemma {:induction false} ScheduleKeepsNoted(w: World, turns: seq<(nat, bool)>, firstEnd: int)
    requires Timed(w) && Noted(w) && EndIsLeaders(w, firstEnd) && forall t <- turns :: t.0 < |w.calls|
    ensures Timed(Schedule(w, turns)) && Noted(Schedule(w, turns)) && EndIsLeaders(Schedule(w, turns), firstEnd)
    ensures Schedule(w, turns).calls == w.calls
    decreases turns
  {
    hide Timed, Noted, EndIsLeaders, Advance;
    SizesOf(w);
    if turns != [] {
      assert turns[0] in turns;
      AdvanceKeepsTimed(w, turns[0].0, turns[0].1);
      AdvanceKeepsNoted(w, turns[0].0, turns[0].1);
      AdvanceKeepsLeader(w, turns[0].0, turns[0].1, firstEnd);
      ScheduleKeepsNoted(Advance(w, turns[0].0, turns[0].1), turns[1..], firstEnd);
    }
  }

  lemma SizesOf(w: World)
    requires Timed(w)
    ensures |w.phases| == |w.calls|
  {
  }

  /** In any interleaving the auction ends when a call of its present leading amount said it would: an extension another
      call computed counts for nothing unless that call leads. */
  lemma AuctionEndsWithItsLeader(listing: Listing, calls: seq<Call>, turns: seq<(nat, bool)>)
    requires Offered(listing) && forall t <- turns :: t.0 < |calls|
    ensures EndIsLeaders(Schedule(Begin(listing, calls), turns), listing.endTime)
  {
    hide Schedule;
    ScheduleKeepsNoted(Begin(listing, calls), turns, listing.endTime);
  }

  // ----- every updated bid has its 120 seconds

  predicate Promised(w: World) {
    forall k <- w.updated :: k < |w.rows| && w.rows[k].time + ANTI_SNIPING_EXTENSION_SECS <= w.listing.endTime
  }

  /** The call's next access is a losing update, and the end is less than 120 seconds after its own bid. */
  predicate CutsOwn(w: World, i: nat)
    requires i < |w.phases| == |w.calls|
  {
    && w.phases[i].Inserted? && !S.Tops(w.listing, w.phases[i].accepted.newHighest.amount)
    && w.listing.endTime < w.calls[i].time + ANTI_SNIPING_EXTENSION_SECS
  }

  /** The call's next access is a winning update to an end less than 120 seconds after a bid already updated. */
  predicate CutsOther(w: World, i: nat)
    requires i < |w.phases| == |w.calls|
  {
    && w.phases[i].Inserted? && S.Tops(w.listing, w.phases[i].accepted.newHighest.amount)
    && exists k <- w.updated ::
         k < |w.rows| && w.phases[i].accepted.newEndAt < w.rows[k].time + ANTI_SNIPING_EXTENSION_SECS
  }

  /** One access keeps every updated bid its 120 seconds exactly unless it is such an update. */
  lemma AccessKeepsPromisesIff(w: World, i: nat, ok: bool)
    requires Timed(w) && Noted(w) && Promised(w) && i < |w.calls|
    ensures Promised(Advance(w, i, ok)) <==> !CutsOwn(w, i) && !CutsOther(w, i)
  {
    hide Winner, Validate, Matching, ToSession, HasId;
    var w' := Advance(w, i, ok);
    assert PhaseTimed(w.listing.terms, w.calls[i], w.phases[i]);
    assert forall k | 0 <= k < |w.rows| :: w'.rows[k] == w.rows[k];
    if w.phases[i].Inserted? {
      assert w.phases[i].row in w'.updated;
      assert forall k <- w.updated :: k in w'.updated;
    }
  }

  /** Throughout the schedule every updated bid has its 120 seconds. */
  predicate KeepsPromises(w: World, turns: seq<(nat, bool)>)
    requires |w.phases| == |w.calls| && forall t <- turns :: t.0 < |w.calls|
    decreases turns
  {
    Promised(w) &&
    (turns == [] ||
     (assert turns[0] in turns;
      KeepsPromises(Advance(w, turns[0].0, turns[0].1), turns[1..])))
  }

  /** No access of the schedule cuts a bid short. */
  predicate NeverCuts(w: World, turns: seq<(nat, bool)>)
    requires |w.phases| == |w.calls| && forall t <- turns :: t.0 < |w.calls|
    decreases turns
  {
    turns == [] ||
    (assert turns[0] in turns;
     && !CutsOwn(w, turns[0].0) && !CutsOther(w, turns[0].0)
     && NeverCuts(Advance(w, turns[0].0, turns[0].1), turns[1..]))
  }

  lemma {:induction false} ScheduleKeepsPromisesIff(w: World, turns: seq<(nat, bool)>, firstEnd: int)
    requires Timed(w) && Noted(w) && EndIsLeaders(w, firstEnd) && Promised(w) && forall t <- turns :: t.0 < |w.calls|
    ensures KeepsPromises(w, turns) <==> NeverCuts(w, turns)
    decreases turns
  {
    hide Timed, Noted, EndIsLeaders, Promised, Advance, CutsOwn, CutsOther;
    SizesOf(w);
    if turns != [] {
      assert turns[0] in turns;
      var w' := Advance(w, turns[0].0, turns[0].1);
      AdvanceKeepsTimed(w, turns[0].0, turns[0].1);
      AdvanceKeepsNoted(w, turns[0].0, turns[0].1);
      AdvanceKeepsLeader(w, turns[0].0, turns[0].1, firstEnd);
      AccessKeepsPromisesIff(w, turns[0].0, turns[0].1);
      if Promised(w') { ScheduleKeepsPromisesIff(w', turns[1..], firstEnd); }
    }
  }

  /** For any instances and any interleaving: every bid keeps its 120 seconds from its update on if and only if no
      update loses to an end too early for its own bid, and none wins with an end too early for another. */
  lemma BidsKeepTheirTimeIff(listing: Listing, calls: seq<Call>, turns: seq<(nat, bool)>)
    requires Offered(listing) && forall t <- turns :: t.0 < |calls|
    ensures KeepsPromises(Begin(listing, calls), turns) <==> NeverCuts(Begin(listing, calls), turns)
  {
    hide KeepsPromises, NeverCuts;
    ScheduleKeepsPromisesIff(Begin(listing, calls), turns, listing.endTime);
  }

  // ----- the two ways to lose an extension

  const LOT := Listing(Terms("sue", 1000, 100, 1000, 0), 1000, Active, None)
  const CALLS := [Call("a", "ann", 1000, 990), Call("b", "bob", 1100, 900)]

  function AnnPrice(): Accepted { Accepted(Bid("ann", 1000, 990), None, true, 1110) }

  function BobPrice(): Accepted { Accepted(Bid("bob", 1100, 900), None, true, 1020) }

  /** Both calls have read the lot and priced their bids. */
  function BothPriced(): World {
    Begin(LOT, CALLS).(phases := [Priced(LOT, AnnPrice(), Extended), Priced(LOT, BobPrice(), Extended)])
  }

  /** On an empty table a call that the session takes is priced after four accesses. */
  lemma FourAccessesPrice(w: World, i: nat, accepted: Accepted, status: Status, rest: seq<(nat, bool)>)
    requires |w.phases| == |w.calls| && i < |w.calls| && w.rows == [] && w.phases[i].Arrived?
    requires forall t <- rest :: t.0 < |w.calls|
    requires var c := w.calls[i];
             && Validate(STANDARD_BID, Context(w.listing, c.bidder, c.time, c.amount, None)).None?
             && ToSession(w.listing, None).PlaceBid(c.bidder, AsU64(c.amount), AsU64(c.time)).1 == Ok(accepted)
             && ToSession(w.listing, None).PlaceBid(c.bidder, AsU64(c.amount), AsU64(c.time)).0.status == status
    ensures Schedule(w, [(i, true)] + ([(i, true)] + ([(i, true)] + ([(i, true)] + rest)))) ==
              Schedule(w.(phases := w.phases[i := Priced(w.listing, accepted, status)]), rest)
  {
    hide Validate, ToSession;
    var w1 := w.(phases := w.phases[i := Unmatched]);
    var w2 := w.(phases := w.phases[i := HasListing(w.listing)]);
    var w3 := w.(phases := w.phases[i := Checked(w.listing)]);
    var w4 := w.(phases := w.phases[i := Priced(w.listing, accepted, status)]);
    assert w1 == Advance(w, i, true);
    assert w2 == Advance(w1, i, true) by { assert w1.phases[i := HasListing(w.listing)] == w2.phases; }
    assert w3 == Advance(w2, i, true) by { assert w2.phases[i := Checked(w.listing)] == w3.phases; }
    assert w4 == Advance(w3, i, true) by { assert w3.phases[i := Priced(w.listing, accepted, status)] == w4.phases; }
    ScheduleCons(w3, i, rest);
    ScheduleCons(w2, i, [(i, true)] + rest);
    ScheduleCons(w1, i, [(i, true)] + ([(i, true)] + rest));
    ScheduleCons(w, i, [(i, true)] + ([(i, true)] + ([(i, true)] + rest)));
  }

  lemma BothPrice(last: seq<(nat, bool)>)
    requires forall t <- last :: t.0 < 2
    ensures exists turns: seq<(nat, bool)> | forall t <- turns :: t.0 < 2 ::
              Schedule(Begin(LOT, CALLS), turns) == Schedule(BothPriced(), last)
  {
    hide Schedule, Advance, Validate;
    var w := Begin(LOT, CALLS);
    StandardChainUnfolds(Context(LOT, "ann", 990, 1000, None));
    StandardChainUnfolds(Context(LOT, "bob", 900, 1100, None));
    var bobs: seq<(nat, bool)> := [(1, true)] + ([(1, true)] + ([(1, true)] + ([(1, true)] + last)));
    var turns: seq<(nat, bool)> := [(0, true)] + ([(0, true)] + ([(0, true)] + ([(0, true)] + bobs)));
    FourAccessesPrice(w, 0, AnnPrice(), Extended, bobs);
    var w' := w.(phases := w.phases[0 := Priced(LOT, AnnPrice(), Extended)]);
    FourAccessesPrice(w', 1, BobPrice(), Extended, last);
    assert w'.phases[1 := Priced(LOT, BobPrice(), Extended)] == BothPriced().phases;
    assert Schedule(w, turns) == Schedule(BothPriced(), last);
  }

  lemma ScheduleCons(w: World, i: nat, turns: seq<(nat, bool)>)
    requires |w.phases| == |w.calls| && i < |w.calls| && forall t <- turns :: t.0 < |w.calls|
    ensures Schedule(w, [(i, true)] + turns) == Schedule(Advance(w, i, true), turns)
  {
    assert ([(i, true)] + turns)[1..] == turns;
  }

  /** One call inserts and updates, then the other. */
  function TwoEach(i: nat, j: nat): (turns: seq<(nat, bool)>)
    ensures forall t <- turns :: t.0 == i || t.0 == j
  {
    [(i, true), (i, true), (j, true), (j, true)]
  }

  lemma TwoAccessesEach(w: World, w1: World, w2: World, w3: World, i: nat, j: nat)
    requires |w.phases| == |w.calls| == |w1.phases| == |w1.calls|
    requires |w2.phases| == |w2.calls| == |w3.phases| == |w3.calls| == |w.calls|
    requires i < |w.calls| && j < |w.calls|
    requires w1 == Advance(w, i, true) && w2 == Advance(w1, i, true) && w3 == Advance(w2, j, true)
    ensures Schedule(w, TwoEach(i, j)) == Advance(w3, j, true)
  {
    hide Advance;
    ScheduleCons(w3, j, []);
    ScheduleCons(w2, j, [(j, true)]);
    ScheduleCons(w1, i, [(j, true), (j, true)]);
    ScheduleCons(w, i, [(i, true), (j, true), (j, true)]);
  }

  /** Ann's bid earns an end at 1110; Bob's winning update, computed from the same reading, sets it to 1020. */
  lemma AnExtensionCanBeLost()
    ensures exists turns: seq<(nat, bool)> | forall t <- turns :: t.0 < 2 ::
              var w := Schedule(Begin(LOT, CALLS), turns);
              |w.rows| == 2 && w.rows[0].time == 990 && w.updated == {0, 1} && w.listing.endTime == 1020
  {
    hide Schedule;
    BothPrice(TwoEach(0, 1));
    var w1 := Advance(BothPriced(), 0, true);
    assert w1.rows == [BidRow("a", "ann", 1000, 990, None)];
    var w2 := Advance(w1, 0, true);
    var w3 := Advance(w2, 1, true);
    TwoAccessesEach(BothPriced(), w1, w2, w3, 0, 1);
  }

  /** Bob updates first; Ann's losing update then drops her extension, and the end stays at 1020, never having moved
      back. */
  lemma ALosingUpdateDropsItsExtension()
    ensures exists turns: seq<(nat, bool)> | forall t <- turns :: t.0 < 2 ::
              var w := Schedule(Begin(LOT, CALLS), turns);
              |w.rows| == 2 && w.rows[1].time == 990 && w.updated == {0, 1} && w.listing.endTime == 1020
  {
    hide Schedule;
    BothPrice(TwoEach(1, 0));
    var w1 := Advance(BothPriced(), 1, true);
    assert w1.rows == [BidRow("b", "bob", 1100, 900, None)];
    var w2 := Advance(w1, 1, true);
    var w3 := Advance(w2, 0, true);
    TwoAccessesEach(BothPriced(), w1, w2, w3, 1, 0);
  }
}
