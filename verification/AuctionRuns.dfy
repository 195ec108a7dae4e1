/** Runs of one stored auction: any sequence of bids, proxy withdrawals, worker passes and manual closes. */
module AuctionRuns {
  import opened Wrappers
  import opened AuctionSession
  import opened BidTable
  import opened ProxyTable
  import opened HoldLedger
  import opened BidValidation
  import opened AuctionStore
  import opened StoreInvariant
  import opened CounterPlan
  import opened CallGuards
  import opened CounterInvariant
  import opened AuctionClosure

  datatype Action =
    | Bidding(request: Request, env: Env)
    | Withdrawing(bidder: string)
    | Working(now: int, tx: Tx, failAt: Option<nat>)
    | Closing(now: int, tx: Tx, failAt: Option<nat>)

  function Step(s: Store, a: Action): Store {
    match a
    case Bidding(r, e) => PlaceBid(s, r, e).0
    case Withdrawing(bidder) => DeleteProxy(s, bidder)
    case Working(now, tx, failAt) => ProcessPending(s, now, tx, failAt).0
    case Closing(now, tx, failAt) => CloseNow(s, now, tx, failAt).0
  }

  function Run(s: Store, actions: seq<Action>): Store
    decreases actions
  {
    if actions == [] then s else Run(Step(s, actions[0]), actions[1..])
  }

  predicate StepLosesRelease(s: Store, a: Action) { a.Bidding? && LosesRelease(s, a.request, a.env) }

  /** No call along the run loses the release of a displaced hold. */
  predicate Sound(s: Store, actions: seq<Action>)
    decreases actions
  {
    actions == [] || (!StepLosesRelease(s, actions[0]) && Sound(Step(s, actions[0]), actions[1..]))
  }

  // ----- closing keeps the store in order

  lemma {:induction false} ReleaseAllReleases(holds: seq<Hold>, rows: seq<BidRow>, failAt: Option<nat>)
    ensures var (holds', ok) := ReleaseAll(holds, rows, failAt);
            && |holds'| == |holds|
            && (forall i | 0 <= i < |holds| :: holds'[i].user == holds[i].user && holds'[i].amount == holds[i].amount)
            && (forall i | 0 <= i < |holds| ::
                  holds'[i].state == holds[i].state || (holds[i].state == Live && holds'[i].state == Released))
            && (ok ==> forall x <- rows :: !IsLive(holds', x.hold))
    decreases rows
  {
    hide Release;
    if rows != [] {
      var later := if failAt.Some? && 0 < failAt.value then Some(failAt.value - 1) else None;
      ReleaseAllReleases(holds, rows[1..], later);
      ReleaseAllReleases(Release(holds, rows[0].hold), rows[1..], later);
    }
  }

  /** Without a wallet failure every release goes through. */
  lemma {:induction false} ReleaseAllSucceeds(holds: seq<Hold>, rows: seq<BidRow>)
    ensures ReleaseAll(holds, rows, None).1
    decreases rows
  {
    if rows != [] {
      ReleaseAllSucceeds(holds, rows[1..]);
      ReleaseAllSucceeds(Release(holds, rows[0].hold), rows[1..]);
    }
  }

  /** Closed, not yet settled: the books are right and nothing has been paid out. */
  predicate Unsettled(s: Store, originalEnd: int) {
    s.job.Some? && Inv(s.(job := Some(s.job.value.(status := Settling, lockedUntil := None))), originalEnd)
    && s.listing.status in {Won, Unsold}
  }

  lemma SettledHolds(s: Store, failAt: Option<nat>, originalEnd: int)
    requires Unsettled(s, originalEnd)
    ensures var (holds, ok) := Settle(s, failAt);
            && HoldsOk(s.hasWallet, s.bids, holds)
            && (ok ==> Settled(s.(holds := holds)))
            && (!ok ==> NoneConverted(holds))
  {
    hide RowsOk, ProxiesOk, OutbidOk, LatestEnd, Listed, ReleaseAll, CacheOk;
    ListedNewest(s);
    if s.hasWallet {
      if s.listing.status == Won {
        if Settle(s, failAt).1 { PayoutSettles(s); }
      } else {
        ReleasesSettle(s, Listed(s.bids), failAt);
      }
    }
  }

  /** Paying out the newest row's live hold leaves nothing live and exactly that hold converted. */
  lemma PayoutSettles(s: Store)
    requires HoldsOk(true, s.bids, s.holds) && NoneConverted(s.holds) && s.bids != [] && s.listing.status == Won
    requires IsLive(s.holds, Last(s.bids).hold)
    ensures var holds := Convert(s.holds, Last(s.bids).hold.value);
            HoldsOk(true, s.bids, holds) && Settled(s.(holds := holds))
  {
  }

  /** Releasing the holds of all rows, as far as it gets, pays out nothing; all the way, it leaves nothing live. */
  lemma ReleasesSettle(s: Store, listed: seq<BidRow>, failAt: Option<nat>)
    requires HoldsOk(true, s.bids, s.holds) && NoneConverted(s.holds) && s.listing.status == Unsold
    requires s.bids != [] ==> Last(s.bids) in listed
    ensures var (holds, ok) := ReleaseAll(s.holds, listed, failAt);
            && HoldsOk(true, s.bids, holds) && NoneConverted(holds)
            && (ok ==> Settled(s.(holds := holds)))
  {
    hide ReleaseAll;
    ReleaseAllReleases(s.holds, listed, failAt);
  }

  /** The listing starts with the newest row and holds every row. */
  lemma ListedNewest(s: Store)
    requires Core(s)
    ensures s.bids == [] <==> Listed(s.bids) == []
    ensures s.bids != [] ==>
              Listed(s.bids)[0] == Last(s.bids) && Last(s.bids) in s.bids && Last(s.bids) in Listed(s.bids)
  {
    WinnerIsNewest(s.listing.terms, s.bids);
  }

  lemma SettlementKeepsInv(s: Store, now: int, failAt: Option<nat>, originalEnd: int)
    requires Unsettled(s, originalEnd)
    ensures Inv(AttemptSettlement(s, now, failAt).0, originalEnd)
  {
    hide RowsOk, ProxiesOk, HoldsOk, OutbidOk, LatestEnd, Settle, NoneConverted;
    SettledHolds(s, failAt, originalEnd);
    var (holds, ok) := Settle(s, failAt);
    if ok { SettledIgnoresJob(s.(holds := holds), MarkDone(s.job)); }
  }

  lemma SettledIgnoresJob(s: Store, job: Option<Job>)
    requires Settled(s)
    ensures Settled(s.(job := job))
  {
  }

  lemma ClosingLeavesUnsettled(s: Store, job: Option<Job>, now: int, originalEnd: int)
    requires Inv(s, originalEnd) && Open(s.listing.status)
    ensures Unsettled(CloseListing(s.(job := job), now), originalEnd)
    ensures CloseListing(s.(job := job), now).bids == s.bids
  {
    hide RowsOk, ProxiesOk, HoldsOk, LatestEnd, NoneConverted, OutbidNames, Listed;
    ListedNewest(s);
    var after := CloseListing(s.(job := job), now);
    OutbidNamesGrow(s.outbox, after.outbox[|s.outbox|]);
  }

  lemma ReconcileKeepsInv(s: Store, now: int, originalEnd: int)
    requires Inv(s, originalEnd)
    ensures Inv(Reconcile(s, now), originalEnd)
  {
    hide RowsOk, ProxiesOk, HoldsOk, OutbidOk, LatestEnd, NoneConverted, Settled;
  }

  /** A claimed job may stay claimed: that delays the closing or the settlement, and harms nothing else. */
  lemma ClaimKeepsInv(s: Store, now: int, originalEnd: int)
    requires Inv(s, originalEnd) && Claimable(s.job, now)
    ensures Inv(s.(job := Some(s.job.value.(status := Processing, lockedUntil := Some(now + CLAIM_SECS)))), originalEnd)
  {
    hide RowsOk, ProxiesOk, HoldsOk, OutbidOk, LatestEnd, NoneConverted, Settled;
  }

  lemma WorkerKeepsInv(s: Store, now: int, tx: Tx, failAt: Option<nat>, originalEnd: int)
    requires Inv(s, originalEnd)
    ensures Inv(ProcessPending(s, now, tx, failAt).0, originalEnd)
  {
    hide RowsOk, ProxiesOk, HoldsOk, OutbidOk, LatestEnd, NoneConverted, Settled, AttemptSettlement, CloseListing;
    ReconcileKeepsInv(s, now, originalEnd);
    var s0 := Reconcile(s, now);
    if Claimable(s0.job, now) {
      var claimed := s0.(job := Some(s0.job.value.(status := Processing, lockedUntil := Some(now + CLAIM_SECS))));
      if tx.Breaks? {
        ClaimKeepsInv(s0, now, originalEnd);
      } else if s0.job.value.status == Settling {
        assert claimed.(job := Some(claimed.job.value.(status := Settling, lockedUntil := None))) == s0;
        SettlementKeepsInv(claimed, now, failAt, originalEnd);
      } else if s.listing.endTime <= now && tx.Commits? {
        ClosingLeavesUnsettled(s0, claimed.job, now, originalEnd);
        SettlementKeepsInv(CloseListing(claimed, now), now, failAt, originalEnd);
      }
    }
  }

  lemma ManualCloseKeepsInv(s: Store, now: int, tx: Tx, failAt: Option<nat>, originalEnd: int)
    requires Inv(s, originalEnd)
    ensures Inv(CloseNow(s, now, tx, failAt).0, originalEnd)
  {
    hide RowsOk, ProxiesOk, HoldsOk, OutbidOk, LatestEnd, NoneConverted, Settled, AttemptSettlement, CloseListing;
    if s.listing.endTime <= now && s.listing.status !in {Won, Unsold} && tx.Commits? {
      assert s.(job := s.job) == s;
      ClosingLeavesUnsettled(s, s.job, now, originalEnd);
      SettlementKeepsInv(CloseListing(s, now), now, failAt, originalEnd);
    }
  }

  lemma WithdrawalKeepsInv(s: Store, bidder: string, originalEnd: int)
    requires Inv(s, originalEnd)
    ensures Inv(DeleteProxy(s, bidder), originalEnd)
  {
    hide RowsOk, HoldsOk, OutbidOk, LatestEnd, NoneConverted;
    DeleteKeepsBiddersDistinct(s.proxies, bidder);
  }

  /** Every step of the service keeps the store in order, except exactly a bidding call that loses a release. */
  lemma StepKeepsInvIff(s: Store, a: Action, originalEnd: int)
    requires Inv(s, originalEnd)
    ensures Inv(Step(s, a), originalEnd) <==> !StepLosesRelease(s, a)
  {
    hide Inv, PlaceBid, LosesRelease, ProcessPending, CloseNow, DeleteProxy;
    match a
    case Bidding(r, e) => PlaceBidKeepsInvIff(s, r, e, originalEnd);
    case Withdrawing(bidder) => WithdrawalKeepsInv(s, bidder, originalEnd);
    case Working(now, tx, failAt) => WorkerKeepsInv(s, now, tx, failAt, originalEnd);
    case Closing(now, tx, failAt) => ManualCloseKeepsInv(s, now, tx, failAt, originalEnd);
  }

  lemma {:induction false} RunKeepsInv(s: Store, actions: seq<Action>, originalEnd: int)
    requires Inv(s, originalEnd) && Sound(s, actions)
    ensures Inv(Run(s, actions), originalEnd)
    decreases actions
  {
    hide Inv, Step, StepLosesRelease;
    if actions != [] {
      StepKeepsInvIff(s, actions[0], originalEnd);
      RunKeepsInv(Step(s, actions[0]), actions[1..], originalEnd);
    }
  }

  // ----- the core over every run

  lemma CreatedIsCore(c: CreateCommand, now: int, hasWallet: bool)
    requires START_TIME_CLOCK_SKEW_SECS <= now && Create(c, now, hasWallet).Some?
    ensures Core(Create(c, now, hasWallet).value)
  {
  }

  lemma CoreStatus(s: Store)
    requires Core(s)
    ensures s.listing.status in {Draft, Active, Extended, Won, Unsold}
  {
  }

  lemma SettlingKeepsCore(s: Store, now: int, failAt: Option<nat>)
    requires Core(s)
    ensures Core(AttemptSettlement(s, now, failAt).0)
  {
    hide Settle;
  }

  lemma ClosingKeepsCore(s: Store, job: Option<Job>, now: int)
    requires Core(s) && Open(s.listing.status)
    ensures Core(CloseListing(s.(job := job), now))
  {
    hide RowsOk, ProxiesOk, Listed;
    ListedNewest(s);
  }

  /** Every step of the service keeps the core: no answer of wallet or database harms rows, maxima and status. */
  lemma StepKeepsCore(s: Store, a: Action)
    requires Core(s)
    ensures Core(Step(s, a))
  {
    hide PlaceBid, AttemptSettlement, CloseListing, RowsOk, Decide;
    match a
    case Bidding(r, e) => PlaceBidKeepsCore(s, r, e);
    case Withdrawing(bidder) => DeleteKeepsBiddersDistinct(s.proxies, bidder);
    case Working(now, tx, failAt) =>
      var s0 := Reconcile(s, now);
      if Claimable(s0.job, now) {
        var claimed := s0.(job := Some(s0.job.value.(status := Processing, lockedUntil := Some(now + CLAIM_SECS))));
        SettlingKeepsCore(claimed, now, failAt);
        if Open(s.listing.status) {
          ClosingKeepsCore(s0, claimed.job, now);
          SettlingKeepsCore(CloseListing(claimed, now), now, failAt);
        }
      }
    case Closing(now, tx, failAt) =>
      if Open(s.listing.status) {
        assert s.(job := s.job) == s;
        ClosingKeepsCore(s, s.job, now);
        SettlingKeepsCore(CloseListing(s, now), now, failAt);
      }
  }

  lemma {:induction false} RunKeepsCore(s: Store, actions: seq<Action>)
    requires Core(s)
    ensures Core(Run(s, actions))
    decreases actions
  {
    hide Core, Step;
    if actions != [] {
      StepKeepsCore(s, actions[0]);
      RunKeepsCore(Step(s, actions[0]), actions[1..]);
    }
  }

  /** A created auction starts in order, given a clock past the skew allowance. */
  lemma CreatedIsInOrder(c: CreateCommand, now: int, hasWallet: bool)
    requires START_TIME_CLOCK_SKEW_SECS <= now && Create(c, now, hasWallet).Some?
    ensures Inv(Create(c, now, hasWallet).value, c.endTime)
  {
    OutbidNamesGrow([], AuctionCreated(c.endTime));
    assert [] + [AuctionCreated(c.endTime)] == [AuctionCreated(c.endTime)];
  }

  // ----- the wallet is wired once

  lemma CallKeepsWallet(s: Store, r: Request, e: Env)
    ensures PlaceBid(s, r, e).0.hasWallet == s.hasWallet
  {
    hide Admit, Commit, ResolveProxies, UpsertMax;
    var a := Admit(s, r, e.catalogOk);
    if a.Admitted? {
      CommitKeepsWallet(s, r, a.accepted, a.status, e);
      ResolveKeepsWallet(Commit(s, r, a.accepted, a.status, e).0, r.time, e);
    }
  }

  lemma CommitKeepsWallet(s: Store, r: Request, accepted: Accepted, status: Status, e: Env)
    ensures Commit(s, r, accepted, status, e).0.hasWallet == s.hasWallet
  {
    hide Winner, HasId, UpsertMax, Release;
  }

  lemma ResolveKeepsWallet(s: Store, time: int, e: Env)
    ensures ResolveProxies(s, time, e).0.hasWallet == s.hasWallet
  {
    hide PlanCounter, HasId, RaiseRow, Release, Where, Advance, UpsertPending, Tops;
  }

  lemma {:induction false} RunKeepsWallet(s: Store, actions: seq<Action>)
    ensures Run(s, actions).hasWallet == s.hasWallet
    decreases actions
  {
    hide PlaceBid, Settle, Decide, Listed, DeleteFor;
    if actions != [] {
      if actions[0].Bidding? { CallKeepsWallet(s, actions[0].request, actions[0].env); }
      RunKeepsWallet(Step(s, actions[0]), actions[1..]);
    }
  }
}
