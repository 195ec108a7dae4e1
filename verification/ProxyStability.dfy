/** Proxy-only bidding settles competing maxima: the price, the winner, and one counter at most. */
module ProxyStability {
  import opened Wrappers
  import opened AuctionSession
  import opened BidTable
  import opened BidCursor
  import opened ProxyTable
  import opened HoldLedger
  import opened BidValidation
  import opened AuctionStore
  import opened StoreInvariant
  import opened CounterPlan
  import opened CallGuards
  import opened CounterInvariant
  import opened AuctionClosure
  import opened AuctionRuns
  import opened BidHistory

  /** The winner has a maximum and is within it; no rival could still top the price; and the price is at most
      one increment above the best rival maximum, or above the starting price without rivals. */
  predicate SettledAt(l: Terms, ps: seq<ProxyRow>, winner: string, price: int) {
    && Knows(ps, winner)
    && (forall p <- ps :: if p.bidder == winner then price <= p.max else p.max < price + l.increment)
    && price <= (match CompetitorCap(ps, winner) case Some(rival) => rival case None => l.startingPrice) + l.increment
  }

  predicate Stable(s: Store) {
    if s.bids == [] then s.proxies == []
    else SettledAt(s.listing.terms, s.proxies, Last(s.bids).bidder, Last(s.bids).amount)
  }

  /** The newcomer's maximum is noted and its bid leads at the minimum: what the counter then meets. */
  predicate Challenged(s: Store, ps: seq<ProxyRow>, bidder: string, price: int) {
    && DistinctBidders(ps) && Knows(ps, bidder)
    && (forall p <- ps :: p.bidder == bidder ==> price <= p.max)
    && (if s.bids == [] then price == s.listing.terms.startingPrice && forall p <- ps :: p.bidder == bidder
        else
          && price == Last(s.bids).amount + s.listing.terms.increment && Last(s.bids).bidder != bidder
          && Knows(ps, Last(s.bids).bidder)
          && forall p <- ps :: p.bidder != bidder ==>
               if p.bidder == Last(s.bids).bidder then Last(s.bids).amount <= p.max else p.max < price)
  }

  lemma UpsertChallenges(s: Store, r: Request, originalEnd: int)
    requires Inv(s, originalEnd) && Stable(s) && r.Proxy?
    requires CanLead(s, r.bidder, Minimum(s), r.time) && Minimum(s) <= r.max
    ensures Challenged(s, WithMaximum(s, r).proxies, r.bidder, Minimum(s))
  {
    hide RowsOk, HoldsOk, OutbidOk, LatestEnd, JobOk, CompetitorCap;
    UpsertKeepsBiddersDistinct(s.proxies, r.bidder, r.max, r.time);
    if s.bids != [] {
      var p :| p in s.proxies && p.bidder == Last(s.bids).bidder;
      assert p in WithMaximum(s, r).proxies;
    }
  }

  lemma DistinctRowsAgree(ps: seq<ProxyRow>, a: ProxyRow, b: ProxyRow)
    requires DistinctBidders(ps) && a in ps && b in ps && a.bidder == b.bidder
    ensures a == b
  {
  }

  /** The amount a counter would bid over a challenger's price. */
  function CounterTarget(l: Terms, ps: seq<ProxyRow>, price: int): int
    requires ps != []
  {
    var rival := CompetitorCap(ps, Top(ps).bidder);
    Min(Top(ps).max, (if rival.Some? then rival.value else price) + l.increment)
  }

  predicate Counters(l: Terms, ps: seq<ProxyRow>, price: int)
    requires ps != []
  {
    price < CounterTarget(l, ps, price) && price + l.increment <= Top(ps).max
  }

  /** The challenger's maximum is no more than what the counter's top rival sees as competition. */
  lemma ChallengerIsRival(s: Store, ps: seq<ProxyRow>, bidder: string, price: int)
    requires Challenged(s, ps, bidder, price) && Top(ps).bidder != bidder
    ensures CompetitorCap(ps, Top(ps).bidder).Some? && price <= CompetitorCap(ps, Top(ps).bidder).value
  {
    hide Top, CompetitorCap;
    var mine :| mine in ps && mine.bidder == bidder;
    assert mine.max >= price;
  }

  lemma OldWinnerIsRival(s: Store, ps: seq<ProxyRow>, bidder: string, price: int)
    requires Challenged(s, ps, bidder, price)
    ensures s.bids == [] ==> CompetitorCap(ps, bidder).None?
    ensures s.bids != [] ==>
              CompetitorCap(ps, bidder).Some? && price <= CompetitorCap(ps, bidder).value + s.listing.terms.increment
  {
    hide CompetitorCap;
    if s.bids != [] {
      var theirs :| theirs in ps && theirs.bidder == Last(s.bids).bidder;
      assert Last(s.bids).amount <= theirs.max;
    }
  }

  /** Without a counter the challenger's price is settled. */
  lemma UncounteredPriceSettles(s: Store, ps: seq<ProxyRow>, bidder: string, price: int)
    requires TermsOk(s.listing.terms) && Challenged(s, ps, bidder, price) && !Counters(s.listing.terms, ps, price)
    ensures SettledAt(s.listing.terms, ps, bidder, price)
  {
    hide Top, CompetitorCap, Knows, DistinctBidders;
    OldWinnerIsRival(s, ps, bidder, price);
    if Top(ps).bidder != bidder { ChallengerIsRival(s, ps, bidder, price); }
  }

  /** The counter's price is settled with the top proxy as winner; against another bidder it is a full increment up. */
  lemma CounteredPriceSettles(s: Store, ps: seq<ProxyRow>, bidder: string, price: int)
    requires TermsOk(s.listing.terms) && Challenged(s, ps, bidder, price) && Counters(s.listing.terms, ps, price)
    ensures SettledAt(s.listing.terms, ps, Top(ps).bidder, CounterTarget(s.listing.terms, ps, price))
    ensures Top(ps).bidder != bidder ==> price + s.listing.terms.increment <= CounterTarget(s.listing.terms, ps, price)
  {
    hide Top, CompetitorCap;
    OldWinnerIsRival(s, ps, bidder, price);
    if Top(ps).bidder != bidder {
      ChallengerIsRival(s, ps, bidder, price);
    }
    forall p <- ps | p.bidder == Top(ps).bidder ensures p == Top(ps) {
      DistinctRowsAgree(ps, p, Top(ps));
    }
  }

  // ----- one call

  lemma {:induction false} OwnMaximumIsNoRival(ps: seq<ProxyRow>, bidder: string, max: int, now: int)
    ensures CompetitorCap(UpsertMax(ps, bidder, max, now), bidder) == CompetitorCap(ps, bidder)
  {
    if ps != [] {
      OwnMaximumIsNoRival(ps[1..], bidder, max, now);
      if ps[0].bidder == bidder {
        assert UpsertMax(ps, bidder, max, now)[1..] == ps[1..];
      } else {
        assert UpsertMax(ps, bidder, max, now)[1..] == UpsertMax(ps[1..], bidder, max, now);
      }
    }
  }

  lemma MaximumRaiseIsLeaders(s: Store, r: Request, catalogOk: bool, originalEnd: int)
    requires Inv(s, originalEnd) && r.Proxy? && Admit(s, r, catalogOk).MaxRaised?
    ensures s.bids != [] && r.bidder == Last(s.bids).bidder && Last(s.bids).amount <= r.max
  {
    hide Inv, Core, Winner, Validate;
    InvIsCore(s, originalEnd);
    CoreWinner(s);
  }

  lemma WinnerMovesMaximum(l: Terms, ps: seq<ProxyRow>, winner: string, price: int, max: int, now: int)
    requires SettledAt(l, ps, winner, price) && DistinctBidders(ps) && price <= max
    ensures SettledAt(l, UpsertMax(ps, winner, max, now), winner, price)
  {
    hide CompetitorCap, UpsertMax, DistinctBidders;
    OwnMaximumIsNoRival(ps, winner, max, now);
  }

  /** The leader may move its maximum anywhere down to the price without unsettling it. */
  lemma LeaderKeepsPriceSettled(s: Store, r: Request, e: Env, originalEnd: int)
    requires Inv(s, originalEnd) && Stable(s) && r.Proxy? && Admit(s, r, e.catalogOk).MaxRaised?
    ensures Stable(WithMaximum(s, r))
  {
    hide Inv, Admit, SettledAt, UpsertMax;
    MaximumRaiseIsLeaders(s, r, e.catalogOk, originalEnd);
    InvProxies(s, originalEnd);
    WinnerMovesMaximum(s.listing.terms, s.proxies, r.bidder, Last(s.bids).amount, r.max, r.time);
  }

  lemma InvProxies(s: Store, originalEnd: int)
    requires Inv(s, originalEnd)
    ensures ProxiesOk(s.listing.terms, s.proxies)
  {
  }

  lemma AdmittedMaximumCovers(s: Store, r: Request, catalogOk: bool, originalEnd: int)
    requires Inv(s, originalEnd) && r.Proxy? && 0 <= r.max && Admit(s, r, catalogOk).Admitted?
    ensures Minimum(s) <= r.max && CanLead(s, r.bidder, Minimum(s), r.time)
  {
    hide HoldsOk, OutbidOk, LatestEnd, ProxiesOk, JobOk, Winner, Rising, DistinctIds;
    AdmittedBidCanLead(s, r, catalogOk);
    WinnerIsNewest(s.listing.terms, s.bids);
    if s.bids != [] { assert Last(s.bids) in s.bids; }
  }

  /** After a challenge the plan is a counter exactly when the top proxy can afford one, and never a refused bid. */
  lemma ChallengePlan(s: Store, s1: Store, time: int, originalEnd: int)
    requires Inv(s1, originalEnd) && JustLed(s1, time) && s.listing.terms == s1.listing.terms
    requires Challenged(s, s1.proxies, Last(s1.bids).bidder, Last(s1.bids).amount)
    ensures var p, price := PlanCounter(s1, time), Last(s1.bids).amount;
            && !p.Blocked?
            && (p.Counter? <==> Counters(s1.listing.terms, s1.proxies, price))
            && (p.Counter? ==>
                  p.bidder == Top(s1.proxies).bidder && p.target == CounterTarget(s1.listing.terms, s1.proxies, price))
  {
    hide RowsOk, HoldsOk, OutbidOk, LatestEnd, JobOk, CompetitorCap, Challenged, DistinctBidders;
    var bidder, price, l := Last(s1.bids).bidder, Last(s1.bids).amount, s1.listing.terms;
    CoreWinner(s1);
    ChallengedKnows(s, s1.proxies, bidder, price);
    NewestIsPriced(s1);
    if Counters(l, s1.proxies, price) {
      CounteredPriceSettles(s, s1.proxies, bidder, price);
    }
  }

  lemma ChallengedKnows(s: Store, ps: seq<ProxyRow>, bidder: string, price: int)
    requires Challenged(s, ps, bidder, price)
    ensures ps != []
  {
  }

  lemma NewestIsPriced(s: Store)
    requires Core(s) && s.bids != []
    ensures 0 < Last(s.bids).amount && s.listing.terms.startTime <= Last(s.bids).time
  {
    assert Last(s.bids) in s.bids;
  }

  /** Neither the wallet nor the database let the call down. */
  predicate Untroubled(reply: Reply) { !reply.WalletFailed? && !reply.DatabaseFailed? }

  lemma ResolvedChallengeSettles(s: Store, s1: Store, time: int, e: Env, originalEnd: int)
    requires Inv(s1, originalEnd) && JustLed(s1, time) && s.listing.terms == s1.listing.terms
    requires Challenged(s, s1.proxies, Last(s1.bids).bidder, Last(s1.bids).amount)
    requires ResolveProxies(s1, time, e).1.Some? ==> Untroubled(ResolveProxies(s1, time, e).1.value)
    ensures ResolveProxies(s1, time, e).1.None? && Stable(ResolveProxies(s1, time, e).0)
  {
    hide Inv, PlanCounter, PlaceCounter, RowRefused, SettledAt, Counters, CounterTarget, Challenged, Knows;
    var p, bidder, price := PlanCounter(s1, time), Last(s1.bids).bidder, Last(s1.bids).amount;
    ChallengePlan(s, s1, time, originalEnd);
    InvIsCore(s1, originalEnd);
    CoreWinner(s1);
    if p.Counter? {
      PlannedCounter(s1, time);
      NewestRowIsBacked(s1);
      PlaceCounterExits(s1, p, e);
      CounteredPriceSettles(s, s1.proxies, bidder, price);
    } else {
      ChallengedKnows(s, s1.proxies, bidder, price);
      UncounteredPriceSettles(s, s1.proxies, bidder, price);
    }
  }

  /** A proxy call on a settled price settles it again, with one counter at most and that counter never refused. */
  lemma ProxyCallSettles(s: Store, r: Request, e: Env, originalEnd: int)
    requires Inv(s, originalEnd) && Stable(s) && r.Proxy? && 0 <= r.max
    requires Untroubled(PlaceBid(s, r, e).1)
    ensures var (s', reply) := PlaceBid(s, r, e);
            && Stable(s')
            && (reply.Placed? <==> Admit(s, r, e.catalogOk).Admitted? || Admit(s, r, e.catalogOk).MaxRaised?)
            && (!reply.Placed? ==> s' == s)
            && |s'.bids| <= |s.bids| + 2
  {
    hide Inv, Core, Stable, Commit, ResolveProxies, AdmitStandard, Matching, WithMaximum, JustLed, Challenged, Validate,
      Winner;
    InvIsCore(s, originalEnd);
    var a := Admit(s, r, e.catalogOk);
    if a.MaxRaised? {
      LeaderKeepsPriceSettled(s, r, e, originalEnd);
      MaximumLeavesBids(s, r);
    }
    if a.Admitted? {
      CommitKeepsInv(s, r, e, originalEnd);
      CommitReply(s, r, a.accepted, a.status, e);
      AdmittedMaximumCovers(s, r, e.catalogOk, originalEnd);
      var (s1, result) := Commit(s, r, a.accepted, a.status, e);
      UpsertChallenges(s, r, originalEnd);
      CommitsIff(s, r, e);
      CommittedRow(s, r, a.accepted, a.status, e);
      PersistedIsJustLed(s, r, result.value, s1);
      ResolvedChallengeSettles(s, s1, r.time, e, originalEnd);
      ResolveAddsOneRow(s1, r.time, e, originalEnd);
      var row := result.value;
      EmitKeepsStable(ResolveProxies(s1, r.time, e).0, BidPlaced(row.id, r.bidder, row.amount, s1.listing.endTime));
    } else {
      ProxyAdmissionReplies(s, r, e.catalogOk);
    }
  }

  lemma ProxyAdmissionReplies(s: Store, r: Request, catalogOk: bool)
    requires r.Proxy?
    ensures !Admit(s, r, catalogOk).Replayed?
    ensures Admit(s, r, catalogOk).Refused? ==> !Admit(s, r, catalogOk).reply.Placed?
  {
    hide Winner;
  }

  lemma EmitKeepsStable(s: Store, event: Event)
    requires Stable(s)
    ensures Stable(Emit(s, event))
  {
  }

  lemma ResolveAddsOneRow(s: Store, time: int, e: Env, originalEnd: int)
    requires Inv(s, originalEnd) && JustLed(s, time)
    ensures |ResolveProxies(s, time, e).0.bids| <= |s.bids| + 1
  {
    hide Inv, PlanCounter, PlaceCounter, RowRefused;
    var p := PlanCounter(s, time);
    if p.Counter? {
      InvIsCore(s, originalEnd);
      PlannedCounter(s, time);
      NewestRowIsBacked(s);
      PlaceCounterExits(s, p, e);
    }
  }

  lemma CommitReply(s: Store, r: Request, accepted: Accepted, status: Status, e: Env)
    ensures Commit(s, r, accepted, status, e).1.Err? ==> !Untroubled(Commit(s, r, accepted, status, e).1.error)
  {
    hide Winner, Lead, InsertFails, WithMaximum;
  }

  // ----- whole runs

  /** Only proxy calls, none of which the wallet or the database lets down. */
  predicate ProxyOnly(s: Store, actions: seq<Action>)
    decreases actions
  {
    actions == [] ||
    var a := actions[0];
    && a.Bidding? && a.request.Proxy?
    && Untroubled(PlaceBid(s, a.request, a.env).1)
    && ProxyOnly(Step(s, a), actions[1..])
  }

  /** A challenger's negative maximum is admitted. */
  predicate LeadsNegatively(s: Store, r: Request, catalogOk: bool) {
    r.Proxy? && r.max < 0 && Admit(s, r, catalogOk).Admitted?
  }

  predicate StepLeadsNegatively(s: Store, a: Action) { a.Bidding? && LeadsNegatively(s, a.request, a.env.catalogOk) }

  predicate NeverLeadsNegatively(s: Store, actions: seq<Action>)
    decreases actions
  {
    actions == [] || (!StepLeadsNegatively(s, actions[0]) && NeverLeadsNegatively(Step(s, actions[0]), actions[1..]))
  }

  /** The price is settled at every point of the run. */
  predicate AlwaysStable(s: Store, actions: seq<Action>)
    decreases actions
  {
    Stable(s) && (actions == [] || AlwaysStable(Step(s, actions[0]), actions[1..]))
  }

  lemma OwnMaximumIsSet(s: Store, r: Request, originalEnd: int) returns (mine: ProxyRow)
    requires Inv(s, originalEnd) && r.Proxy?
    ensures mine in WithMaximum(s, r).proxies && mine.bidder == r.bidder && mine.max == r.max
    ensures forall p <- WithMaximum(s, r).proxies :: p.bidder == r.bidder ==> p.max == r.max
    ensures forall p <- WithMaximum(s, r).proxies :: p in s.proxies || p.bidder == r.bidder
  {
    hide RowsOk, HoldsOk, OutbidOk, LatestEnd, JobOk;
    assert Knows(UpsertMax(s.proxies, r.bidder, r.max, r.time), r.bidder);
    mine :| mine in WithMaximum(s, r).proxies && mine.bidder == r.bidder;
  }

  /** Over a settled price nobody but the old winner could counter, and no other maximum would make that counter
      enough. */
  lemma NegativeMaximumDrawsNoCounter(s: Store, r: Request, originalEnd: int)
    requires Inv(s, originalEnd) && Stable(s) && r.Proxy? && r.max < 0
    requires s.bids != [] ==> Last(s.bids).bidder != r.bidder
    ensures !DrawsCounter(s, r)
  {
    hide RowsOk, HoldsOk, OutbidOk, LatestEnd, JobOk, CompetitorCap, WithMaximum, CacheOk, Top;
    var mine := OwnMaximumIsSet(s, r, originalEnd);
    var ps, price := WithMaximum(s, r).proxies, Price(s, r);
    if s.bids != [] { NewestIsPriced(s); }
    if Able(ps, price, s.listing.terms.increment) {
      assert Top(ps).bidder != r.bidder;
      var rival := CompetitorCap(ps, Top(ps).bidder);
      assert rival.Some? by { assert mine in ps; }
      assert rival.value < price;
    }
  }

  /** Admitted with a negative maximum, the challenger leads above its own maximum. */
  lemma NegativeMaximumUnsettles(s: Store, r: Request, e: Env, originalEnd: int)
    requires Inv(s, originalEnd) && Stable(s) && LeadsNegatively(s, r, e.catalogOk)
    requires Untroubled(PlaceBid(s, r, e).1)
    ensures !Stable(PlaceBid(s, r, e).0)
  {
    hide Inv, Core, Commit, Admit, JustLed, Persisted, PlanCounter, PlaceCounter, DrawsCounter, DrawsRefusal,
      CounterRaises, CounterRowFails, InsertFails, HoldGranted, Stable, Winner, WithMaximum;
    InvIsCore(s, originalEnd);
    var a := Admit(s, r, e.catalogOk);
    CommitReply(s, r, a.accepted, a.status, e);
    CommitsIff(s, r, e);
    AdmittedBidCanLead(s, r, e.catalogOk);
    NegativeMaximumDrawsNoCounter(s, r, originalEnd);
    AcceptedCallPlans(s, r, e);
    var (s1, result) := Commit(s, r, a.accepted, a.status, e);
    PersistedTables(s, r, result.value, s1);
    var mine := OwnMaximumIsSet(s, r, originalEnd);
    MinimumIsPositive(s);
    AboveOwnMaximum(PlaceBid(s, r, e).0, mine);
  }

  lemma MinimumIsPositive(s: Store)
    requires Core(s)
    ensures 0 < Minimum(s)
  {
    if s.bids != [] { NewestIsPriced(s); }
  }

  lemma AboveOwnMaximum(s: Store, mine: ProxyRow)
    requires s.bids != [] && mine in s.proxies && mine.bidder == Last(s.bids).bidder && mine.max < Last(s.bids).amount
    ensures !Stable(s)
  {
    hide CompetitorCap;
  }

  /** A proxy call on a settled price settles it again, exactly unless it leads with a negative maximum. */
  lemma ProxyCallSettlesIff(s: Store, r: Request, e: Env, originalEnd: int)
    requires Inv(s, originalEnd) && Stable(s) && r.Proxy? && Untroubled(PlaceBid(s, r, e).1)
    ensures Stable(PlaceBid(s, r, e).0) <==> !LeadsNegatively(s, r, e.catalogOk)
  {
    hide Inv, Stable, PlaceBid, Admit;
    if LeadsNegatively(s, r, e.catalogOk) {
      NegativeMaximumUnsettles(s, r, e, originalEnd);
    } else if 0 <= r.max {
      ProxyCallSettles(s, r, e, originalEnd);
    } else {
      UnadmittedProxyKeepsStable(s, r, e, originalEnd);
    }
  }

  lemma UnadmittedProxyKeepsStable(s: Store, r: Request, e: Env, originalEnd: int)
    requires Inv(s, originalEnd) && Stable(s) && r.Proxy? && !Admit(s, r, e.catalogOk).Admitted?
    ensures Stable(PlaceBid(s, r, e).0)
  {
    hide Inv, Stable, AdmitProxy, Matching, WithMaximum;
    if Admit(s, r, e.catalogOk).MaxRaised? { LeaderKeepsPriceSettled(s, r, e, originalEnd); }
  }

  lemma LostReleaseIsTrouble(s: Store, r: Request, e: Env)
    requires Core(s) && LosesRelease(s, r, e)
    ensures !Untroubled(PlaceBid(s, r, e).1)
  {
    hide Core, Commit, PlanCounter, PlaceCounter, Admit, Persisted, JustLed, InsertFails, HoldGranted, DrawsCounter,
      DrawsRefusal, CounterRaises, CounterRowFails;
    var a := Admit(s, r, e.catalogOk);
    AcceptedCallPlans(s, r, e);
    var (s1, result) := Commit(s, r, a.accepted, a.status, e);
    PersistedTables(s, r, result.value, s1);
    JustLedHasRows(s1, r.time);
    PlannedCounter(s1, r.time);
    NewestRowIsBacked(s1);
    PlaceCounterExits(s1, PlanCounter(s1, r.time), e);
  }

  lemma UntroubledStepKeepsInv(s: Store, a: Action, originalEnd: int)
    requires Inv(s, originalEnd) && a.Bidding? && Untroubled(PlaceBid(s, a.request, a.env).1)
    ensures Inv(Step(s, a), originalEnd) && !StepLosesRelease(s, a)
  {
    hide Inv, Core, PlaceBid, LosesRelease;
    InvIsCore(s, originalEnd);
    if LosesRelease(s, a.request, a.env) { LostReleaseIsTrouble(s, a.request, a.env); }
    StepKeepsInvIff(s, a, originalEnd);
  }

  /** Over every run of untroubled proxy calls: the price is settled throughout if and only if no call leads with a
      negative maximum. */
  lemma {:induction false} ProxyRunSettlesIff(s: Store, actions: seq<Action>, originalEnd: int)
    requires Inv(s, originalEnd) && Stable(s) && ProxyOnly(s, actions)
    ensures AlwaysStable(s, actions) <==> NeverLeadsNegatively(s, actions)
    ensures Sound(s, actions) && Inv(Run(s, actions), originalEnd)
    decreases actions
  {
    hide Inv, Stable, PlaceBid, StepLosesRelease, LeadsNegatively;
    if actions != [] {
      var a := actions[0];
      ProxyCallSettlesIff(s, a.request, a.env, originalEnd);
      UntroubledStepKeepsInv(s, a, originalEnd);
      if Stable(Step(s, a)) {
        ProxyRunSettlesIff(Step(s, a), actions[1..], originalEnd);
      } else {
        UntroubledRunKeepsInv(Step(s, a), actions[1..], originalEnd);
      }
    }
  }

  lemma {:induction false} UntroubledRunKeepsInv(s: Store, actions: seq<Action>, originalEnd: int)
    requires Inv(s, originalEnd) && ProxyOnly(s, actions)
    ensures Sound(s, actions) && Inv(Run(s, actions), originalEnd)
    decreases actions
  {
    hide Inv, PlaceBid, StepLosesRelease;
    if actions != [] {
      UntroubledStepKeepsInv(s, actions[0], originalEnd);
      UntroubledRunKeepsInv(Step(s, actions[0]), actions[1..], originalEnd);
    }
  }

  lemma {:induction false} StableAtTheEnd(s: Store, actions: seq<Action>)
    requires AlwaysStable(s, actions)
    ensures Stable(Run(s, actions))
    decreases actions
  {
    hide Stable, Step;
    if actions != [] { StableAtTheEnd(Step(s, actions[0]), actions[1..]); }
  }

  /** From creation, as long as no call leads with a negative maximum: no proxy but the winner's could afford
      another bid, and the winner pays within its maximum and an increment above the best rival or the starting
      price. */
  lemma ProxyAuctionIsStable(c: CreateCommand, now: int, hasWallet: bool, actions: seq<Action>)
    requires START_TIME_CLOCK_SKEW_SECS <= now && Create(c, now, hasWallet).Some?
    requires ProxyOnly(Create(c, now, hasWallet).value, actions)
    requires NeverLeadsNegatively(Create(c, now, hasWallet).value, actions)
    ensures var s := Run(Create(c, now, hasWallet).value, actions);
            && (s.bids == [] ==> s.proxies == [])
            && (Winner(s.bids).Some? ==>
                  var w := Winner(s.bids).value;
                  && (forall p <- s.proxies ::
                        if p.bidder == w.bidder then w.amount <= p.max else p.max < w.amount + c.increment)
                  && w.amount <= c.increment
                                 + (match CompetitorCap(s.proxies, w.bidder)
                                    case Some(rival) => rival
                                    case None => c.startingPrice))
  {
    hide Inv, Run, ProxyOnly, NeverLeadsNegatively, AlwaysStable, Sound, CompetitorCap, Winner;
    CreatedIsInOrder(c, now, hasWallet);
    var s0 := Create(c, now, hasWallet).value;
    ProxyRunSettlesIff(s0, actions, c.endTime);
    StableAtTheEnd(s0, actions);
    RunOnlyAppends(s0, actions);
    InvIsCore(Run(s0, actions), c.endTime);
    CoreWinner(Run(s0, actions));
  }

  // ----- a negative maximum

  /** Cast to an unsigned number a negative maximum is enormous, so a challenger's call passes with it just as with a
      sufficient one. */
  lemma ChallengerMaximumPassesIff(s: Store, bidder: string, max: int, time: int, originalEnd: int)
    requires Inv(s, originalEnd) && IsI64(max) && Minimum(s) < I64_LIMIT
    requires s.bids != [] ==> Last(s.bids).bidder != bidder
    ensures AdmitProxy(s, bidder, max, time).Admitted? <==>
              CanLead(s, bidder, Minimum(s), time) && (max < 0 || Minimum(s) <= max)
  {
    hide HoldsOk, OutbidOk, LatestEnd, ProxiesOk, JobOk, Winner, Rising, DistinctIds;
    WinnerIsNewest(s.listing.terms, s.bids);
    if s.bids != [] { assert Last(s.bids) in s.bids; }
  }
}
