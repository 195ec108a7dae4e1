/** Across instances: which bids get into the table, and that calls one after the other do what one instance does. */
module MultiInstanceBids {
  import opened Wrappers
  import opened AuctionSession
  import opened BidTable
  import opened BidValidation
  import S = AuctionStore
  import R = AuctionRuns
  import opened MultiInstance
  import opened MultiInstanceEnds

  // ----- every row was a fair bid when it was checked

  /** Against this listing and these rows the call may lead: open, inside the window, not the seller, not the winner,
      and at least the starting price or an increment above the winner. */
  predicate MayLead(l: Listing, rows: seq<BidRow>, c: Call) {
    && l.status in {Active, Extended} && l.terms.startTime <= c.time < l.endTime && c.bidder != l.terms.seller
    && match Winner(rows)
       case None => l.terms.startingPrice <= c.amount
       case Some(w) => w.bidder != c.bidder && w.amount + l.terms.increment <= c.amount
  }

  predicate Read(h: seq<World>, l: Listing) { exists m | 0 <= m < |h| :: h[m].listing == l }

  /** The call read the listing and then may have led by the rows of a later moment. */
  predicate CheckedOnce(h: seq<World>, l: Listing, c: Call) {
    exists m, n | 0 <= m <= n < |h| :: h[m].listing == l && MayLead(l, h[n].rows, c)
  }

  /** And again by those of a moment later still. */
  predicate CheckedTwice(h: seq<World>, l: Listing, c: Call) {
    exists m, n, k | 0 <= m <= n < k < |h| :: h[m].listing == l && MayLead(l, h[n].rows, c) && MayLead(l, h[k].rows, c)
  }

  function RowOf(c: Call): BidRow { BidRow(c.id, c.bidder, c.amount, c.time, None) }

  /** The row is a call's, which had been checked twice against one listing it read. */
  predicate Fair(h: seq<World>, calls: seq<Call>, x: BidRow) {
    exists i, m | 0 <= i < |calls| && 0 <= m < |h| ::
      x == RowOf(calls[i]) && CheckedTwice(h, h[m].listing, calls[i])
  }

  /** What a call has come to know is backed by the worlds passed through. */
  predicate PhaseFair(h: seq<World>, c: Call, p: Phase) {
    match p
    case HasListing(l) => Read(h, l)
    case Checked(l) => CheckedOnce(h, l, c)
    case Priced(l, accepted, _) => Read(h, l) && CheckedTwice(h, l, c) && accepted.newHighest.amount == c.amount
    case _ => true
  }

  predicate HistoryFair(h: seq<World>, w: World) {
    && Timed(w)
    && (forall i | 0 <= i < |w.phases| :: PhaseFair(h, w.calls[i], w.phases[i]))
    && (forall x <- w.rows :: Fair(h, w.calls, x))
  }

  /** The worlds a schedule goes through before the one it ends in. */
  function Past(w: World, turns: seq<(nat, bool)>): seq<World>
    requires |w.phases| == |w.calls| && forall t <- turns :: t.0 < |w.calls|
    decreases turns
  {
    if turns == [] then []
    else
      (assert turns[0] in turns;
       [w] + Past(Advance(w, turns[0].0, turns[0].1), turns[1..]))
  }

  lemma ReadStays(h: seq<World>, w: World, l: Listing)
    requires Read(h, l)
    ensures Read(h + [w], l)
  {
    var m :| 0 <= m < |h| && h[m].listing == l;
    assert (h + [w])[m] == h[m];
  }

  lemma CheckedOnceStays(h: seq<World>, w: World, l: Listing, c: Call)
    requires CheckedOnce(h, l, c)
    ensures CheckedOnce(h + [w], l, c)
  {
    var m, n :| 0 <= m <= n < |h| && h[m].listing == l && MayLead(l, h[n].rows, c);
    assert (h + [w])[m] == h[m] && (h + [w])[n] == h[n];
  }

  lemma CheckedTwiceStays(h: seq<World>, w: World, l: Listing, c: Call)
    requires CheckedTwice(h, l, c)
    ensures CheckedTwice(h + [w], l, c)
  {
    var m, n, k :| 0 <= m <= n < k < |h| && h[m].listing == l && MayLead(l, h[n].rows, c) && MayLead(l, h[k].rows, c);
    assert (h + [w])[m] == h[m] && (h + [w])[n] == h[n] && (h + [w])[k] == h[k];
  }

  lemma FairStays(h: seq<World>, w: World, calls: seq<Call>, x: BidRow)
    requires Fair(h, calls, x)
    ensures Fair(h + [w], calls, x)
  {
    hide CheckedTwice;
    var i, m :| 0 <= i < |calls| && 0 <= m < |h| && x == RowOf(calls[i]) && CheckedTwice(h, h[m].listing, calls[i]);
    CheckedTwiceStays(h, w, h[m].listing, calls[i]);
    assert (h + [w])[m] == h[m];
  }

  lemma PhaseFairStays(h: seq<World>, w: World, c: Call, p: Phase)
    requires PhaseFair(h, c, p)
    ensures PhaseFair(h + [w], c, p)
  {
    hide CheckedOnce, CheckedTwice, Read;
    match p
    case HasListing(l) => ReadStays(h, w, l);
    case Checked(l) => CheckedOnceStays(h, w, l, c);
    case Priced(l, _, _) =>
      ReadStays(h, w, l);
      CheckedTwiceStays(h, w, l, c);
    case _ =>
  }

  /** The policy chain passes only a call that may lead by the rows it then sees. */
  lemma ChainChecks(h: seq<World>, w: World, i: nat, ok: bool)
    requires i < |w.calls| == |w.phases| && w.phases[i].HasListing? && Advance(w, i, ok).phases[i].Checked?
    requires Read(h, w.phases[i].listing)
    ensures CheckedOnce(h + [w], w.phases[i].listing, w.calls[i])
  {
    hide Winner, Validate;
    var c, l := w.calls[i], w.phases[i].listing;
    StandardChainUnfolds(Context(l, c.bidder, c.time, c.amount, Winner(w.rows)));
    assert MayLead(l, w.rows, c);
    var m :| 0 <= m < |h| && h[m].listing == l;
    assert (h + [w])[m] == h[m] && (h + [w])[|h|] == w;
  }

  /** And the session prices only a call that still may lead. */
  lemma SessionChecks(h: seq<World>, w: World, i: nat, ok: bool)
    requires Timed(w) && i < |w.calls| == |w.phases| && w.phases[i].Checked?
    requires Advance(w, i, ok).phases[i].Priced?
    requires CheckedOnce(h, w.phases[i].listing, w.calls[i])
    ensures CheckedTwice(h + [w], w.phases[i].listing, w.calls[i]) && Read(h + [w], w.phases[i].listing)
    ensures Advance(w, i, ok).phases[i].accepted.newHighest.amount == w.calls[i].amount
  {
    hide Winner;
    var c, l := w.calls[i], w.phases[i].listing;
    assert PhaseTimed(w.listing.terms, c, w.phases[i]);
    WinnerIsARow(w.rows);
    assert MayLead(l, w.rows, c);
    var m, n :| 0 <= m <= n < |h| && h[m].listing == l && MayLead(l, h[n].rows, c);
    var g := h + [w];
    assert g[m] == h[m] && g[n] == h[n] && g[|h|] == w;
  }

  lemma OwnPhaseIsFair(h: seq<World>, w: World, i: nat, ok: bool)
    requires HistoryFair(h, w) && i < |w.calls| == |w.phases|
    ensures PhaseFair(h + [w], w.calls[i], Advance(w, i, ok).phases[i])
  {
    hide Fair, CheckedOnce, CheckedTwice, MayLead, Winner, Validate, Matching, ToSession, HasId, Timed;
    var p, p' := w.phases[i], Advance(w, i, ok).phases[i];
    assert PhaseFair(h, w.calls[i], p);
    match p
    case Unmatched => assert (h + [w])[|h|] == w;
    case HasListing(l) => if p'.Checked? { ChainChecks(h, w, i, ok); }
    case Checked(l) => if p'.Priced? { SessionChecks(h, w, i, ok); }
    case _ =>
  }

  lemma StepStaysFair(h: seq<World>, w: World, i: nat, ok: bool)
    requires HistoryFair(h, w) && i < |w.calls|
    ensures HistoryFair(h + [w], Advance(w, i, ok))
  {
    hide Timed, PhaseFair, Fair, Winner, Validate, Matching, ToSession, HasId;
    SizesOf(w);
    var w' := Advance(w, i, ok);
    AdvanceKeepsTimed(w, i, ok);
    forall j | 0 <= j < |w'.phases| ensures PhaseFair(h + [w], w'.calls[j], w'.phases[j]) {
      if j == i { OwnPhaseIsFair(h, w, i, ok); } else { PhaseFairStays(h, w, w.calls[j], w.phases[j]); }
    }
    forall x <- w'.rows ensures Fair(h + [w], w'.calls, x) {
      if x in w.rows { FairStays(h, w, w.calls, x); } else { NewRowIsFair(h, w, i, ok, x); }
    }
  }

  lemma NewRowIsFair(h: seq<World>, w: World, i: nat, ok: bool, x: BidRow)
    requires HistoryFair(h, w) && i < |w.calls| == |w.phases|
    requires x in Advance(w, i, ok).rows && x !in w.rows
    ensures Fair(h + [w], w.calls, x)
  {
    hide Fair, CheckedOnce, CheckedTwice, Winner, Validate, Matching, ToSession, HasId, Timed;
    assert PhaseFair(h, w.calls[i], w.phases[i]);
    var l := w.phases[i].listing;
    assert x == RowOf(w.calls[i]);
    CheckedTwiceStays(h, w, l, w.calls[i]);
    var m :| 0 <= m < |h| && h[m].listing == l;
    assert (h + [w])[m] == h[m];
    FairWitness(h + [w], w.calls, x, i, m);
  }

  lemma FairWitness(h: seq<World>, calls: seq<Call>, x: BidRow, i: nat, m: nat)
    requires i < |calls| && m < |h| && x == RowOf(calls[i]) && CheckedTwice(h, h[m].listing, calls[i])
    ensures Fair(h, calls, x)
  {
  }

  lemma {:induction false} ScheduleStaysFair(h: seq<World>, w: World, turns: seq<(nat, bool)>)
    requires HistoryFair(h, w) && |w.phases| == |w.calls| && forall t <- turns :: t.0 < |w.calls|
    ensures HistoryFair(h + Past(w, turns), Schedule(w, turns)) && Schedule(w, turns).calls == w.calls
    decreases turns
  {
    hide HistoryFair, Advance;
    if turns == [] {
      assert h + [] == h;
    } else {
      assert turns[0] in turns;
      var w' := Advance(w, turns[0].0, turns[0].1);
      StepStaysFair(h, w, turns[0].0, turns[0].1);
      ScheduleStaysFair(h + [w], w', turns[1..]);
      assert h + Past(w, turns) == h + [w] + Past(w', turns[1..]);
    }
  }

  /** For any calls and any interleaving: every row in the table is a call's bid that, against a listing the call had
      read, could lead by the rows at its first check and again by those at its second. */
  lemma EveryRowWasFair(listing: Listing, calls: seq<Call>, turns: seq<(nat, bool)>)
    requires Offered(listing) && forall t <- turns :: t.0 < |calls|
    ensures var w := Begin(listing, calls);
            forall x <- Schedule(w, turns).rows :: Fair(Past(w, turns), calls, x)
  {
    hide Schedule, Past, Fair;
    var w := Begin(listing, calls);
    ScheduleStaysFair([], w, turns);
    assert [] + Past(w, turns) == Past(w, turns);
  }

  // ----- one call at a time

  /** What one instance has, seen from the shared tables: no wallet and no maxima. */
  function Alone(w: World): S.Store { S.Store(w.listing, w.rows, [], None, [], [], false) }

  function RequestOf(c: Call): S.Request { S.Standard(c.bidder, c.amount, c.time) }

  function EnvOf(c: Call, ok: bool): S.Env { S.Env(true, c.id, true, true, ok, true, "", true, true, true, true) }

  /** The six accesses of one undisturbed call. */
  function Turns(i: nat, ok: bool): (turns: seq<(nat, bool)>)
    ensures forall t <- turns :: t.0 == i
  {
    [(i, ok), (i, ok), (i, ok), (i, ok), (i, ok), (i, ok)]
  }

  lemma SixAccesses(w: World, i: nat, ok: bool)
    requires |w.phases| == |w.calls| && i < |w.calls|
    ensures var a := Advance(Advance(w, i, ok), i, ok);
            var b := Advance(Advance(a, i, ok), i, ok);
            Schedule(w, Turns(i, ok)) == Advance(Advance(b, i, ok), i, ok)
  {
    hide Advance, Schedule;
    var t := (i, ok);
    var w1 := Advance(w, i, ok);
    var w2 := Advance(w1, i, ok);
    var w3 := Advance(w2, i, ok);
    var w4 := Advance(w3, i, ok);
    var w5 := Advance(w4, i, ok);
    var a: seq<(nat, bool)>, b: seq<(nat, bool)> := [t, t], [t, t, t, t];
    assert Turns(i, ok) == [t] + ([t] + b) && b == [t] + ([t] + a) && a == [t] + ([t] + []);
    Unroll(w, t, [t] + b);
    Unroll(w1, t, b);
    Unroll(w2, t, [t] + a);
    Unroll(w3, t, a);
    Unroll(w4, t, [t] + []);
    Unroll(w5, t, []);
    NoTurns(Advance(w5, i, ok));
  }

  lemma NoTurns(w: World)
    requires |w.phases| == |w.calls|
    ensures Schedule(w, []) == w
  {
  }

  lemma Unroll(w: World, t: (nat, bool), rest: seq<(nat, bool)>)
    requires |w.phases| == |w.calls| && t.0 < |w.calls| && forall u <- rest :: u.0 < |w.calls|
    ensures |Advance(w, t.0, t.1).phases| == |w.calls| && Advance(w, t.0, t.1).calls == w.calls
    ensures Schedule(w, [t] + rest) == Schedule(Advance(w, t.0, t.1), rest)
  {
    assert ([t] + rest)[1..] == rest;
  }

  /** What the specified call does without wallet and maxima. */
  lemma AloneCallIs(s: S.Store, c: Call, ok: bool)
    requires !s.hasWallet && s.proxies == []
    ensures var s' := S.PlaceBid(s, RequestOf(c), EnvOf(c, ok)).0;
            var objection := Validate(STANDARD_BID, Context(s.listing, c.bidder, c.time, c.amount, Winner(s.bids)));
            var session := ToSession(s.listing, Winner(s.bids));
            var (after, verdict) := session.PlaceBid(c.bidder, AsU64(c.amount), AsU64(c.time));
            if Matching(s.bids, c.bidder, c.amount, c.time).Some? || objection.Some? || verdict.Err? || !ok
               || HasId(s.bids, c.id)
            then s'.bids == s.bids && s'.listing == s.listing
            else
              && s'.bids == s.bids + [BidRow(c.id, c.bidder, verdict.value.newHighest.amount, c.time, None)]
              && s'.listing == CompareAndSet(s.listing, verdict.value, after.status)
    ensures S.PlaceBid(s, RequestOf(c), EnvOf(c, ok)).0.proxies == []
            && !S.PlaceBid(s, RequestOf(c), EnvOf(c, ok)).0.hasWallet
  {
    hide Validate, Winner, Matching, HasId;
    var objection := Validate(STANDARD_BID, Context(s.listing, c.bidder, c.time, c.amount, Winner(s.bids)));
    StandardChainUnfolds(Context(s.listing, c.bidder, c.time, c.amount, Winner(s.bids)));
  }

  /** An undisturbed call does to listing and rows exactly what the call of a single instance does. */
  lemma UndisturbedCallIsPlaceBid(w: World, i: nat, ok: bool)
    requires |w.phases| == |w.calls| && i < |w.calls| && w.phases[i].Arrived?
    ensures var w' := Schedule(w, Turns(i, ok));
            var s' := S.PlaceBid(Alone(w), RequestOf(w.calls[i]), EnvOf(w.calls[i], ok)).0;
            && w'.listing == s'.listing && w'.rows == s'.bids && w'.calls == w.calls
            && w'.phases == w.phases[i := Finished]
  {
    hide Schedule, Advance, S.PlaceBid, Validate, Winner, Matching, HasId, ToSession, CompareAndSet;
    SixAccesses(w, i, ok);
    AloneCallIs(Alone(w), w.calls[i], ok);
    ReadsArrive(w, i, ok);
    var w2 := Advance(Advance(w, i, ok), i, ok);
    if w2.phases[i].HasListing? {
      ChecksPrice(w2, i, ok);
      var w4 := Advance(Advance(w2, i, ok), i, ok);
      if w4.phases[i].Priced? { PriceLands(w4, i, ok); } else { FinishedStays(w4, i, ok); }
    } else {
      FinishedStays(w2, i, ok);
    }
  }

  lemma FinishedStays(w: World, i: nat, ok: bool)
    requires |w.phases| == |w.calls| && i < |w.calls| && w.phases[i].Finished?
    ensures Advance(w, i, ok) == w
  {
  }

  lemma ReadsArrive(w: World, i: nat, ok: bool)
    requires |w.phases| == |w.calls| && i < |w.calls| && w.phases[i].Arrived?
    ensures var c := w.calls[i];
            Advance(Advance(w, i, ok), i, ok) ==
              w.(phases := w.phases[i := if Matching(w.rows, c.bidder, c.amount, c.time).Some? then Finished
                                         else HasListing(w.listing)])
  {
    hide Validate, Winner, Matching, HasId, ToSession, CompareAndSet;
  }

  lemma ChecksPrice(w: World, i: nat, ok: bool)
    requires |w.phases| == |w.calls| && i < |w.calls| && w.phases[i].HasListing?
    ensures var c, l := w.calls[i], w.phases[i].listing;
            var objection := Validate(STANDARD_BID, Context(l, c.bidder, c.time, c.amount, Winner(w.rows)));
            var (after, verdict) := ToSession(l, Winner(w.rows)).PlaceBid(c.bidder, AsU64(c.amount), AsU64(c.time));
            Advance(Advance(w, i, ok), i, ok) ==
              w.(phases := w.phases[i := if objection.Some? || verdict.Err? then Finished
                                         else Priced(l, verdict.value, after.status)])
  {
    hide Validate, Winner, Matching, HasId, ToSession, CompareAndSet;
  }

  lemma PriceLands(w: World, i: nat, ok: bool)
    requires |w.phases| == |w.calls| && i < |w.calls| && w.phases[i].Priced?
    ensures var c, p := w.calls[i], w.phases[i];
            var w' := Advance(Advance(w, i, ok), i, ok);
            && w'.calls == w.calls && w'.phases == w.phases[i := Finished]
            && (if !ok || HasId(w.rows, c.id) then w'.rows == w.rows && w'.listing == w.listing
                else
                  && w'.rows == w.rows + [BidRow(c.id, c.bidder, p.accepted.newHighest.amount, c.time, None)]
                  && w'.listing == CompareAndSet(w.listing, p.accepted, p.status))
  {
    hide Validate, Winner, Matching, HasId, ToSession, CompareAndSet;
  }

  // ----- calls one after the other

  /** The calls from the i-th on, each undisturbed; `oks` says which inserts go through. */
  function OneByOne(i: nat, oks: seq<bool>): (turns: seq<(nat, bool)>)
    ensures forall t <- turns :: i <= t.0 < i + |oks|
    decreases oks
  {
    if oks == [] then [] else Turns(i, oks[0]) + OneByOne(i + 1, oks[1..])
  }

  /** The same calls as a run of one instance. */
  function Calls(calls: seq<Call>, oks: seq<bool>): seq<R.Action>
    requires |calls| == |oks|
    decreases oks
  {
    if oks == [] then [] else [R.Bidding(RequestOf(calls[0]), EnvOf(calls[0], oks[0]))] + Calls(calls[1..], oks[1..])
  }

  lemma {:induction false} SchedulesJoin(w: World, a: seq<(nat, bool)>, b: seq<(nat, bool)>)
    requires |w.phases| == |w.calls| && forall t <- a + b :: t.0 < |w.calls|
    ensures |Schedule(w, a).phases| == |w.calls| && |Schedule(w, a).calls| == |w.calls|
    ensures Schedule(w, a + b) == Schedule(Schedule(w, a), b)
    decreases a
  {
    hide Advance;
    if a == [] {
      assert a + b == b;
    } else {
      assert (a + b)[0] == a[0] && (a + b)[1..] == a[1..] + b;
      assert a[0] in a + b;
      SchedulesJoin(Advance(w, a[0].0, a[0].1), a[1..], b);
    }
  }

  lemma CallsCons(s: S.Store, calls: seq<Call>, oks: seq<bool>)
    requires |calls| == |oks| && oks != []
    ensures R.Run(s, Calls(calls, oks)) ==
              R.Run(S.PlaceBid(s, RequestOf(calls[0]), EnvOf(calls[0], oks[0])).0, Calls(calls[1..], oks[1..]))
  {
    hide S.PlaceBid;
    assert Calls(calls, oks)[1..] == Calls(calls[1..], oks[1..]);
  }

  /** Calls one after the other leave listing and rows as the same calls at a single instance do. */
  lemma {:induction false} OneByOneIsOneInstance(w: World, s: S.Store, i: nat, oks: seq<bool>)
    requires |w.phases| == |w.calls| == i + |oks| && forall j | i <= j < |w.phases| :: w.phases[j].Arrived?
    requires s.listing == w.listing && s.bids == w.rows && s.proxies == [] && !s.hasWallet
    ensures var w', s' := Schedule(w, OneByOne(i, oks)), R.Run(s, Calls(w.calls[i..], oks));
            && w'.listing == s'.listing && w'.rows == s'.bids
            && forall j | 0 <= j < |w'.phases| :: w'.phases[j] == if j < i then w.phases[j] else Finished
    decreases oks
  {
    hide Schedule, S.PlaceBid, Turns;
    if oks == [] {
      NoTurns(w);
    } else {
      var c := w.calls[i];
      UndisturbedCallIsPlaceBid(w, i, oks[0]);
      var w1, s1 := Schedule(w, Turns(i, oks[0])), S.PlaceBid(s, RequestOf(c), EnvOf(c, oks[0])).0;
      AloneCallIs(s, c, oks[0]);
      AloneCallIs(Alone(w), c, oks[0]);
      SchedulesJoin(w, Turns(i, oks[0]), OneByOne(i + 1, oks[1..]));
      assert w.calls[i..][0] == c && w.calls[i..][1..] == w.calls[i + 1..];
      CallsCons(s, w.calls[i..], oks);
      OneByOneIsOneInstance(w1, s1, i + 1, oks[1..]);
    }
  }
}
