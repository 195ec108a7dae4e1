/** The persisted protocol simulates the domain session it rebuilds on every call. */
module SessionRefinement {
  import opened Wrappers
  import opened AuctionSession
  import opened BidTable
  import opened ProxyTable
  import opened HoldLedger
  import opened BidValidation
  import opened AuctionStore
  import opened StoreInvariant
  import opened CounterPlan
  import opened CallGuards
  import opened CounterInvariant
  import opened AuctionClosure
  import opened AuctionRuns
  import opened BidHistory
  import opened ProxyStability
  import opened Admission
  import opened CallEffects

  /** The session a stored auction stands for. */
  function View(s: Store): Session { ToSession(s.listing, Winner(s.bids)) }

  /** What the domain session does with a request. */
  function Domain(a: Session, r: Request): (Session, Verdict) {
    match r
    case Standard(bidder, amount, time) => a.PlaceBid(bidder, AsU64(amount), AsU64(time))
    case Proxy(bidder, max, time) => a.PlaceProxyBid(bidder, AsU64(max), AsU64(time))
  }

  lemma AdmissionIsTheSessions(s: Store, r: Request, catalogOk: bool)
    requires Admit(s, r, catalogOk).Admitted?
    ensures Domain(View(s), r).1 == Ok(Admit(s, r, catalogOk).accepted)
    ensures Domain(View(s), r).0.status == Admit(s, r, catalogOk).status
  {
    hide Winner, Validate, Matching, ToSession;
  }

  /** The session after an accepted request, spelled out. */
  lemma DomainLeads(s: Store, r: Request, e: Env, originalEnd: int)
    requires Inv(s, originalEnd) && Admit(s, r, e.catalogOk).Admitted?
    ensures var a := Admit(s, r, e.catalogOk);
            Domain(View(s), r).0.Uncounted() ==
              View(s).(highest := Some(Bid(r.bidder, a.accepted.newHighest.amount, r.time)),
                       endAt := a.accepted.newEndAt, status := a.status)
  {
    hide HoldsOk, OutbidOk, LatestEnd, ProxiesOk, JobOk, Winner, Rising, DistinctIds, Validate, Matching;
    AdmittedBidCanLead(s, r, e.catalogOk);
    AdmissionIsTheSessions(s, r, e.catalogOk);
    CoreWinner(s);
    if s.bids != [] { assert Last(s.bids) in s.bids; }
    if r.Standard? { StandardChainUnfolds(Context(s.listing, r.bidder, r.time, r.amount, Winner(s.bids))); }
  }

  lemma CommitWrites(s: Store, r: Request, e: Env, originalEnd: int)
    requires Inv(s, originalEnd) && Accepts(s, r, e)
    ensures Admit(s, r, e.catalogOk).Admitted?
    ensures var a := Admit(s, r, e.catalogOk); Commit(s, r, a.accepted, a.status, e).1.Ok?
    ensures var a := Admit(s, r, e.catalogOk);
            var (s1, result) := Commit(s, r, a.accepted, a.status, e);
            && s1.listing == s.listing.(cachedHighest := Some(a.accepted.newHighest.amount),
                                        endTime := a.accepted.newEndAt, status := a.status)
            && Newest(s1.bids) == Some(result.value) && result.value.bidder == r.bidder && result.value.time == r.time
            && result.value.amount == a.accepted.newHighest.amount
            && Inv(s1, originalEnd)
  {
    hide Inv, Core, Commit, Cleared, Admit, HoldFunds;
    InvIsCore(s, originalEnd);
    var a := Admit(s, r, e.catalogOk);
    AdmittedBidCanLead(s, r, e.catalogOk);
    CommitKeepsInv(s, r, e, originalEnd);
    CommitsIff(s, r, e);
    CoreWinner(s);
    MinimumTops(s, a.accepted.newHighest.amount);
    CommitLeads(s, r, a.accepted, a.status, e);
    ClearedIsInOrder(s, r, originalEnd);
    FundsLeaveListing(Cleared(s, r), r.bidder, a.accepted.newHighest.amount);
  }

  lemma FundsLeaveListing(s: Store, user: string, cents: int)
    ensures HoldFunds(s, user, cents).0.listing == s.listing && HoldFunds(s, user, cents).0.bids == s.bids
  {
  }

  /** Persisting an accepted request commutes with rebuilding the session, the extension counter aside. */
  lemma CommitCommutes(s: Store, r: Request, e: Env, originalEnd: int)
    requires Inv(s, originalEnd) && Accepts(s, r, e)
    ensures var a := Admit(s, r, e.catalogOk);
            View(Commit(s, r, a.accepted, a.status, e).0) == Domain(View(s), r).0.Uncounted()
    ensures Domain(View(s), r).1.Ok?
  {
    hide Inv, Core, Commit, Admit, Winner, Domain;
    InvIsCore(s, originalEnd);
    var a := Admit(s, r, e.catalogOk);
    AdmissionIsTheSessions(s, r, e.catalogOk);
    DomainLeads(s, r, e, originalEnd);
    CommitWrites(s, r, e, originalEnd);
    InvIsCore(Commit(s, r, a.accepted, a.status, e).0, originalEnd);
    CoreWinner(Commit(s, r, a.accepted, a.status, e).0);
    CoreWinner(s);
    AdmittedNumbersFit(s, r, e, originalEnd);
  }

  lemma AdmittedNumbersFit(s: Store, r: Request, e: Env, originalEnd: int)
    requires Inv(s, originalEnd) && Admit(s, r, e.catalogOk).Admitted?
    ensures var a := Admit(s, r, e.catalogOk).accepted; 0 <= a.newHighest.amount && 0 <= r.time && 0 <= a.newEndAt
  {
    hide HoldsOk, OutbidOk, LatestEnd, ProxiesOk, JobOk, Winner, Rising, DistinctIds, Admit;
    AdmittedBidCanLead(s, r, e.catalogOk);
    if s.bids != [] { assert Last(s.bids) in s.bids; }
  }

  // ----- the counter

  lemma OvertakingPlan(s: Store, time: int)
    requires PlanCounter(s, time).Counter? && !PlanCounter(s, time).Raises() && 0 < PlanCounter(s, time).target
             && 0 <= time
    ensures var p := PlanCounter(s, time);
            var (a, verdict) := View(s).PlaceBid(p.bidder, p.target, p.time);
            verdict.Ok? && p.status == a.status && p.endTime == a.endAt
  {
    hide Winner, Top, CompetitorCap, ToSession;
  }

  /** The counter bid that replaces another leader commutes too, except in one corner: exactly 120 seconds before
      the end of an auction not yet extended, the session marks it extended and the listing does not. */
  lemma OvertakingCommutesIff(s: Store, time: int, e: Env, originalEnd: int)
    requires Inv(s, originalEnd) && JustLed(s, time) && PlanCounter(s, time).Counter? && !PlanCounter(s, time).Raises()
    requires var p := PlanCounter(s, time);
             !RowRefused(s, p, e) && !ReleaseLost(s, p, e) && (s.hasWallet ==> e.autoHoldOk)
    ensures var p := PlanCounter(s, time);
            var (a, verdict) := View(s).PlaceBid(p.bidder, p.target, p.time);
            && verdict.Ok?
            && (View(PlaceCounter(s, p, e).0) == a.Uncounted()
                <==> !(s.listing.status == Active && s.listing.endTime == p.time + ANTI_SNIPING_WINDOW_SECS))
  {
    hide Inv, PlaceCounter, PlanCounter, Winner, HoldFunds, Release, RowRefused;
    var p := PlanCounter(s, time);
    InvIsCore(s, originalEnd);
    PlannedCounter(s, time);
    NewestRowIsBacked(s);
    NewestIsPriced(s);
    CoreWinner(s);
    OvertakingPlan(s, time);
    PlaceCounterExits(s, p, e);
    PlacedCounterKeepsInv(s, time, e, originalEnd);
    InvIsCore(PlaceCounter(s, p, e).0, originalEnd);
    CoreWinner(PlaceCounter(s, p, e).0);
  }

  // ----- standard-only runs

  /** The offers a standard-only run persists, in order. */
  function PersistedOffers(s: Store, actions: seq<Action>): seq<Offer>
    decreases actions
  {
    if actions == [] then []
    else
      var a := actions[0];
      (if a.Bidding? && Accepts(s, a.request, a.env)
       then [Offer(a.request.bidder, RequestAmount(a.request), a.request.time)] else [])
      + PersistedOffers(Step(s, a), actions[1..])
  }

  function RequestAmount(r: Request): int { if r.Standard? then r.amount else r.max }

  predicate StandardOnly(actions: seq<Action>) {
    forall a <- actions :: a.Bidding? && a.request.Standard?
  }

  /** The session after a sequence of offers. */
  function Replay(a: Session, offers: seq<Offer>): Session
    decreases offers
  {
    if offers == [] then a
    else Replay(a.PlaceBid(offers[0].bidder, offers[0].amount, offers[0].now).0, offers[1..])
  }

  /** The session takes every one of the offers when its turn comes. */
  predicate TakesAll(a: Session, offers: seq<Offer>)
    decreases offers
  {
    offers == [] ||
    (a.Takes(offers[0].bidder, offers[0].amount, offers[0].now) &&
     TakesAll(a.PlaceBid(offers[0].bidder, offers[0].amount, offers[0].now).0, offers[1..]))
  }

  lemma {:induction false} CounterIsInvisible(a: Session, b: Session, offers: seq<Offer>)
    requires a.Uncounted() == b.Uncounted()
    ensures Replay(a, offers).Uncounted() == Replay(b, offers).Uncounted()
    ensures TakesAll(a, offers) == TakesAll(b, offers)
    decreases offers
  {
    if offers != [] {
      var o := offers[0];
      CounterIsInvisible(a.PlaceBid(o.bidder, o.amount, o.now).0, b.PlaceBid(o.bidder, o.amount, o.now).0, offers[1..]);
    }
  }

  /** Without proxies a standard call is a session bid if it is accepted, and otherwise invisible to the session. */
  lemma StandardCallSimulates(s: Store, r: Request, e: Env, originalEnd: int)
    requires Inv(s, originalEnd) && s.proxies == [] && r.Standard?
    ensures var s' := PlaceBid(s, r, e).0;
            && s'.proxies == []
            && !LosesRelease(s, r, e)
            && (Accepts(s, r, e) ==>
                  && View(s).Takes(r.bidder, r.amount, r.time)
                  && View(s') == View(s).PlaceBid(r.bidder, r.amount, r.time).0.Uncounted())
            && (!Accepts(s, r, e) ==> View(s') == View(s))
            && (!Admit(s, r, e.catalogOk).Admitted? ==> s' == s)
  {
    hide Inv, Core, Commit, View, Winner, Validate, AdmitStandard, Matching, Persisted, InsertFails, HoldGranted,
      CounterRowFails;
    InvIsCore(s, originalEnd);
    var a := Admit(s, r, e.catalogOk);
    if a.Admitted? {
      CommitKeepsInv(s, r, e, originalEnd);
      CommitsIff(s, r, e);
      var (s1, result) := Commit(s, r, a.accepted, a.status, e);
      if result.Ok? {
        PersistedProxies(s, r, result.value, s1);
        CommitCommutes(s, r, e, originalEnd);
        AdmittedBidCanLead(s, r, e.catalogOk);
        AdmittedNumbersFit(s, r, e, originalEnd);
        ViewIgnoresEvents(s1, BidPlaced(result.value.id, result.value.bidder, result.value.amount, s1.listing.endTime));
      } else {
        SameRowsSameView(s, s1);
      }
    }
  }

  lemma PersistedProxies(s: Store, r: Request, row: BidRow, s1: Store)
    requires Persisted(s, r, row, s1) && r.Standard?
    ensures s1.proxies == s.proxies
  {
  }

  lemma ViewIgnoresEvents(s: Store, event: Event)
    ensures View(Emit(s, event)) == View(s)
  {
  }

  lemma SameRowsSameView(s: Store, s': Store)
    requires s.bids == s'.bids && s.listing == s'.listing
    ensures View(s) == View(s')
  {
  }

  /** Every run of persisted standard bids is a run of the session on the bids it accepted: same leader, end and
      status. */
  lemma {:induction false} StandardRunRefinesSession(s: Store, actions: seq<Action>, originalEnd: int)
    requires Inv(s, originalEnd) && s.proxies == [] && StandardOnly(actions)
    ensures Sound(s, actions)
    ensures TakesAll(View(s), PersistedOffers(s, actions))
    ensures View(Run(s, actions)) == Replay(View(s), PersistedOffers(s, actions)).Uncounted()
    decreases actions
  {
    hide Inv, View, PlaceBid, Accepts, LosesRelease;
    if actions == [] {
      ViewIsUncounted(s);
    } else {
      var a := actions[0];
      assert a in actions;
      StandardCallSimulates(s, a.request, a.env, originalEnd);
      StepKeepsInvIff(s, a, originalEnd);
      var s' := Step(s, a);
      var rest := PersistedOffers(s', actions[1..]);
      StandardRunRefinesSession(s', actions[1..], originalEnd);
      if Accepts(s, a.request, a.env) {
        var o := Offer(a.request.bidder, a.request.amount, a.request.time);
        assert PersistedOffers(s, actions) == [o] + rest;
        CounterIsInvisible(View(s'), View(s).PlaceBid(o.bidder, o.amount, o.now).0, rest);
        ReplayCons(View(s), o, rest);
      } else {
        assert PersistedOffers(s, actions) == rest;
      }
    }
  }

  lemma ReplayCons(a: Session, o: Offer, rest: seq<Offer>)
    ensures Replay(a, [o] + rest) == Replay(a.PlaceBid(o.bidder, o.amount, o.now).0, rest)
    ensures TakesAll(a, [o] + rest) <==>
              a.Takes(o.bidder, o.amount, o.now) && TakesAll(a.PlaceBid(o.bidder, o.amount, o.now).0, rest)
  {
    assert ([o] + rest)[1..] == rest;
  }

  lemma ViewIsUncounted(s: Store)
    ensures View(s).Uncounted() == View(s)
  {
  }

  // ----- exactly the bids the session takes

  /** Everybody says yes and the ids are fresh. */
  predicate Granted(s: Store, e: Env) { e.catalogOk && MoneyMoves(s, e) && RowFits(s, e.bidId, e.insertOk) }

  predicate AlwaysGranted(s: Store, actions: seq<Action>)
    decreases actions
  {
    actions == [] ||
    (actions[0].Bidding? && Granted(s, actions[0].env) && AlwaysGranted(Step(s, actions[0]), actions[1..]))
  }

  function OfferOf(r: Request): Offer { Offer(r.bidder, RequestAmount(r), r.time) }

  function Offers(actions: seq<Action>): seq<Offer>
    requires StandardOnly(actions)
  {
    seq(|actions|, i requires 0 <= i < |actions| => OfferOf(actions[i].request))
  }

  /** The offers a session takes when each comes to the session as the ones before left it. */
  function Taken(a: Session, offers: seq<Offer>): seq<Offer>
    decreases offers
  {
    if offers == [] then []
    else
      var o := offers[0];
      if a.Takes(o.bidder, o.amount, o.now) then [o] + Taken(a.PlaceBid(o.bidder, o.amount, o.now).0, offers[1..])
      else Taken(a, offers[1..])
  }

  /** The rebuilt session takes a bid exactly when it may lead in the store. */
  lemma SessionTakesIff(s: Store, bidder: string, amount: int, time: int, originalEnd: int)
    requires Inv(s, originalEnd) && 0 <= originalEnd
    ensures View(s).Takes(bidder, amount, time) <==> CanLead(s, bidder, amount, time)
  {
    hide Core, HoldsOk, OutbidOk, JobOk, Winner;
    InvIsCore(s, originalEnd);
    NewestIsPositive(s);
  }

  /** A bid already in the table can no longer lead. */
  lemma MatchedCannotLead(s: Store, r: Request)
    requires Core(s) && Matched(s, r)
    ensures !CanLead(s, r.bidder, r.amount, r.time)
  {
    hide ProxiesOk, CacheNotAbove, StatusOk, DistinctIds;
  }

  /** With every answer yes, a standard call persists its bid exactly when the rebuilt session takes it. */
  lemma GrantedCallTakesIff(s: Store, r: Request, e: Env, originalEnd: int)
    requires Inv(s, originalEnd) && 0 <= originalEnd && r.Standard? && Granted(s, e)
    ensures Accepts(s, r, e) <==> View(s).Takes(r.bidder, r.amount, r.time)
  {
    hide Inv, Core, View, Accepts, CanLead, Matched;
    InvIsCore(s, originalEnd);
    AcceptsIff(s, r, e);
    SessionTakesIff(s, r.bidder, r.amount, r.time, originalEnd);
    if Matched(s, r) { MatchedCannotLead(s, r); }
  }

  lemma {:induction false} CounterIsInvisibleToTaken(a: Session, b: Session, offers: seq<Offer>)
    requires a.Uncounted() == b.Uncounted()
    ensures Taken(a, offers) == Taken(b, offers)
    decreases offers
  {
    if offers != [] {
      var o := offers[0];
      CounterIsInvisibleToTaken(a.PlaceBid(o.bidder, o.amount, o.now).0, b.PlaceBid(o.bidder, o.amount, o.now).0,
                                offers[1..]);
      CounterIsInvisibleToTaken(a, b, offers[1..]);
    }
  }

  lemma TakenCons(a: Session, o: Offer, rest: seq<Offer>)
    ensures Taken(a, [o] + rest) ==
              if a.Takes(o.bidder, o.amount, o.now) then [o] + Taken(a.PlaceBid(o.bidder, o.amount, o.now).0, rest)
              else Taken(a, rest)
  {
    assert ([o] + rest)[1..] == rest;
  }

  /** With every answer yes, a run of standard bids persists exactly the offers the session takes, in their order. */
  lemma {:induction false} GrantedRunTakesExactly(s: Store, actions: seq<Action>, originalEnd: int)
    requires Inv(s, originalEnd) && 0 <= originalEnd && s.proxies == []
    requires StandardOnly(actions) && AlwaysGranted(s, actions)
    ensures PersistedOffers(s, actions) == Taken(View(s), Offers(actions))
    decreases actions
  {
    hide Inv, View, PlaceBid, Accepts, LosesRelease, Granted;
    if actions != [] {
      var a, s' := actions[0], Step(s, actions[0]);
      assert a in actions;
      GrantedCallTakesIff(s, a.request, a.env, originalEnd);
      StandardCallSimulates(s, a.request, a.env, originalEnd);
      StepKeepsInvIff(s, a, originalEnd);
      GrantedRunTakesExactly(s', actions[1..], originalEnd);
      var o, rest := OfferOf(a.request), Offers(actions[1..]);
      assert Offers(actions) == [o] + rest;
      TakenCons(View(s), o, rest);
      if Accepts(s, a.request, a.env) {
        CounterIsInvisibleToTaken(View(s'), View(s).PlaceBid(o.bidder, o.amount, o.now).0, rest);
        assert PersistedOffers(s, actions) == [o] + PersistedOffers(s', actions[1..]);
      } else {
        assert PersistedOffers(s, actions) == PersistedOffers(s', actions[1..]);
      }
    }
  }

  /** From creation, with every answer yes: the stored auction shows what its session shows after exactly the offers it
      takes. */
  lemma StandardAuctionIsItsSession(c: CreateCommand, now: int, hasWallet: bool, actions: seq<Action>)
    requires START_TIME_CLOCK_SKEW_SECS <= now && Create(c, now, hasWallet).Some?
    requires StandardOnly(actions) && AlwaysGranted(Create(c, now, hasWallet).value, actions)
    ensures var s0 := Create(c, now, hasWallet).value;
            View(Run(s0, actions)) == Replay(View(s0), Taken(View(s0), Offers(actions))).Uncounted()
  {
    hide Inv, View, Run, AlwaysGranted, Replay, Taken, PersistedOffers;
    var s0 := Create(c, now, hasWallet).value;
    CreatedIsInOrder(c, now, hasWallet);
    GrantedRunTakesExactly(s0, actions, c.endTime);
    StandardRunRefinesSession(s0, actions, c.endTime);
  }
}
