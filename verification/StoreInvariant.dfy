/** What every stored auction satisfies, and that each bidding call keeps it. */
module StoreInvariant {
  import opened Wrappers
  import opened AuctionSession
  import opened BidTable
  import opened ProxyTable
  import opened HoldLedger
  import opened BidValidation
  import opened AuctionStore

  function Last(rows: seq<BidRow>): BidRow
    requires rows != []
  {
    rows[|rows| - 1]
  }

  function Newest(rows: seq<BidRow>): Option<BidRow> { if rows == [] then None else Some(Last(rows)) }

  function BiddersOf(rows: seq<BidRow>): seq<string> { seq(|rows|, i requires 0 <= i < |rows| => rows[i].bidder) }

  /** The bidders named by the outbid events, in order. */
  function OutbidNames(events: seq<Event>): seq<string> {
    if events == [] then []
    else
      var e := events[|events| - 1];
      OutbidNames(events[..|events| - 1]) + if e.Outbid? then [e.previous] else []
  }

  /** The original end, or 120 seconds after the latest bid that pushes it further. */
  function LatestEnd(originalEnd: int, rows: seq<BidRow>): (r: int)
    ensures originalEnd <= r
    ensures forall x <- rows :: x.time + ANTI_SNIPING_EXTENSION_SECS <= r
    ensures r == originalEnd || exists x <- rows :: r == x.time + ANTI_SNIPING_EXTENSION_SECS
  {
    if rows == [] then originalEnd
    else
      assert rows == rows[..|rows| - 1] + [Last(rows)];
      Max(LatestEnd(originalEnd, rows[..|rows| - 1]), Last(rows).time + ANTI_SNIPING_EXTENSION_SECS)
  }

  /** What creation guarantees about the terms of an auction. */
  predicate TermsOk(l: Terms) {
    0 < l.startingPrice <= l.reserve && 0 < l.increment && 0 <= l.startTime
  }

  /** Amounts strictly rise in insertion order, nobody tops their own bid, and the seller never bids. */
  predicate RowsOk(l: Terms, rows: seq<BidRow>) {
    && Rising(rows) && DistinctIds(rows)
    && (forall x <- rows :: x.bidder != l.seller && l.startingPrice <= x.amount && l.startTime <= x.time)
    && (forall i | 0 < i < |rows| :: rows[i - 1].bidder != rows[i].bidder)
  }

  predicate CacheOk(l: Listing, rows: seq<BidRow>) {
    l.cachedHighest == if rows == [] then None else Some(Last(rows).amount)
  }

  predicate ProxiesOk(l: Terms, ps: seq<ProxyRow>) {
    DistinctBidders(ps) && forall p <- ps :: p.bidder != l.seller
  }

  /** The outbid events name every leader but the present one, in order. */
  predicate OutbidOk(events: seq<Event>, rows: seq<BidRow>) {
    OutbidNames(events) == if rows == [] then [] else BiddersOf(rows)[..|rows| - 1]
  }

  /** Every row is backed by a hold of its own, of its bidder and for its amount. */
  predicate Backed(hasWallet: bool, rows: seq<BidRow>, holds: seq<Hold>) {
    if !hasWallet then holds == [] && forall x <- rows :: x.hold.None?
    else
      && (forall x <- rows :: x.hold.Some? && x.hold.value < |holds|
            && holds[x.hold.value].user == x.bidder && holds[x.hold.value].amount == Rupiah(x.amount))
      && (forall i, j | 0 <= i < j < |rows| :: rows[i].hold != rows[j].hold)
  }

  /** The rows are backed, and of their holds only the newest row's can be live. */
  predicate HoldsOk(hasWallet: bool, rows: seq<BidRow>, holds: seq<Hold>) {
    && Backed(hasWallet, rows, holds)
    && (hasWallet ==> forall i | 0 <= i < |rows| - 1 :: !IsLive(holds, rows[i].hold))
  }

  predicate NoneConverted(holds: seq<Hold>) {
    forall h | 0 <= h < |holds| :: holds[h].state != Converted
  }

  /** Exactly a winner's own hold has been paid out. */
  predicate PaidOut(s: Store) {
    forall h | 0 <= h < |s.holds| ::
      s.holds[h].state == Converted <==> s.listing.status == Won && s.bids != [] && Last(s.bids).hold == Some(h)
  }

  /** No row's hold is live, and exactly a winner's own hold has been paid out. */
  predicate Settled(s: Store) { (forall x <- s.bids :: !IsLive(s.holds, x.hold)) && PaidOut(s) }

  predicate Open(status: Status) { status in {Draft, Active, Extended} }

  /** Scheduled for the end time, unless an attempt to close has failed and was put off; waiting or abandoned. */
  predicate WaitsForEnd(job: Job, endTime: int) {
    && (job.attempts == 0 ==> job.dueAt == endTime)
    && (job.status == Processing || (job.status == Pending && job.lockedUntil.None?))
  }

  /** A worker has claimed the job and never marked it. */
  predicate Abandoned(s: Store) { s.job.Some? && s.job.value.status == Processing }

  /** An open auction's closure is scheduled at its end; a closed one is settling, settled, or abandoned before that. */
  predicate JobOk(s: Store) {
    if Open(s.listing.status) then
      && NoneConverted(s.holds)
      && (s.job.Some? ==> WaitsForEnd(s.job.value, s.listing.endTime))
    else
      && s.job.Some?
      && (Abandoned(s)
          || (s.job.value.lockedUntil.None? && (s.job.value.status == Settling || s.job.value.status == Done)))
      && (s.job.value.status != Done ==> NoneConverted(s.holds))
      && (s.job.value.status == Done ==> Settled(s))
  }

  /** The cached highest is never above the newest row, and there exactly when there are rows. */
  predicate CacheNotAbove(l: Listing, rows: seq<BidRow>) {
    if rows == [] then l.cachedHighest.None? else l.cachedHighest.Some? && l.cachedHighest.value <= Last(rows).amount
  }

  /** A draft has no rows, and a closed auction is won just when its newest row meets the reserve. */
  predicate StatusOk(s: Store) {
    && s.listing.status in {Draft, Active, Extended, Won, Unsold}
    && (s.listing.status == Draft ==> s.bids == [])
    && (!Open(s.listing.status) ==>
          (s.listing.status == Won <==> s.bids != [] && s.listing.terms.reserve <= Last(s.bids).amount))
  }

  /** What every run keeps, also when a call stops between its writes. */
  predicate Core(s: Store) {
    && TermsOk(s.listing.terms)
    && RowsOk(s.listing.terms, s.bids)
    && CacheNotAbove(s.listing, s.bids)
    && ProxiesOk(s.listing.terms, s.proxies)
    && (s.hasWallet ==> forall x <- s.bids :: x.hold.Some?)
    && StatusOk(s)
  }

  /** The listing has caught up with the newest row, as when a counter is due. */
  predicate Current(s: Store) { Core(s) && CacheOk(s.listing, s.bids) }

  predicate Inv(s: Store, originalEnd: int) {
    && Core(s)
    && CacheOk(s.listing, s.bids)
    && s.listing.endTime == LatestEnd(originalEnd, s.bids)
    && OutbidOk(s.outbox, s.bids)
    && HoldsOk(s.hasWallet, s.bids, s.holds)
    && JobOk(s)
  }

  lemma InvIsCore(s: Store, originalEnd: int)
    requires Inv(s, originalEnd)
    ensures Core(s) && Current(s) && CacheOk(s.listing, s.bids)
  {
  }

  // ----- reading an invariant store

  lemma WinnerIsNewest(l: Terms, rows: seq<BidRow>)
    requires RowsOk(l, rows)
    ensures Winner(rows) == Newest(rows)
  {
    if rows != [] { NewestIsListedFirst(rows); }
  }

  lemma CoreWinner(s: Store)
    requires Core(s)
    ensures Winner(s.bids) == Newest(s.bids) && TermsOk(s.listing.terms)
    ensures s.listing.cachedHighest.None? <==> s.bids == []
  {
    WinnerIsNewest(s.listing.terms, s.bids);
  }

  /** The least amount a new leader must bid. */
  function Minimum(s: Store): int {
    if s.bids == [] then s.listing.terms.startingPrice else Last(s.bids).amount + s.listing.terms.increment
  }

  predicate CanLead(s: Store, bidder: string, amount: int, time: int) {
    && s.listing.status in {Active, Extended}
    && s.listing.terms.startTime <= time < s.listing.endTime
    && bidder != s.listing.terms.seller
    && (s.bids != [] ==> Last(s.bids).bidder != bidder)
    && Minimum(s) <= amount
  }

  /** An admitted call is a bid that may lead, with the end time and status the session gives it. */
  lemma AdmittedBidCanLead(s: Store, r: Request, catalogOk: bool)
    requires Core(s) && Admit(s, r, catalogOk).Admitted?
    ensures var a := Admit(s, r, catalogOk);
            var amount := a.accepted.newHighest.amount;
            && CanLead(s, r.bidder, amount, r.time)
            && amount == (if r.Standard? then r.amount else Minimum(s))
            && a.accepted.newEndAt == Max(s.listing.endTime, r.time + ANTI_SNIPING_EXTENSION_SECS)
            && a.status == (if s.listing.endTime <= r.time + ANTI_SNIPING_WINDOW_SECS then Extended
               else s.listing.status)
  {
    hide HoldsOk, OutbidOk, LatestEnd, ProxiesOk, JobOk, Validate, Winner, Rising, DistinctIds, Matching;
    WinnerIsNewest(s.listing.terms, s.bids);
    if s.bids != [] { assert Last(s.bids) in s.bids; }
    if r.Standard? {
      StandardChainUnfolds(Context(s.listing, r.bidder, r.time, r.amount, Winner(s.bids)));
    }
  }

  // ----- a new row on top

  lemma LatestEndGrows(originalEnd: int, rows: seq<BidRow>, row: BidRow)
    ensures LatestEnd(originalEnd, rows + [row]) ==
              Max(LatestEnd(originalEnd, rows), row.time + ANTI_SNIPING_EXTENSION_SECS)
  {
    assert (rows + [row])[..|rows + [row]| - 1] == rows;
  }

  lemma OutbidNamesGrow(events: seq<Event>, e: Event)
    ensures OutbidNames(events + [e]) == OutbidNames(events) + if e.Outbid? then [e.previous] else []
  {
    assert (events + [e])[..|events + [e]| - 1] == events;
  }

  lemma RowsOkGrows(l: Terms, rows: seq<BidRow>, row: BidRow)
    requires TermsOk(l) && RowsOk(l, rows) && !HasId(rows, row.id)
    requires row.bidder != l.seller && l.startTime <= row.time
    requires rows != [] ==> Last(rows).bidder != row.bidder
    requires (if rows == [] then l.startingPrice else Last(rows).amount + l.increment) <= row.amount
    ensures RowsOk(l, rows + [row])
  {
    forall x <- rows ensures x.id != row.id {}
    if rows != [] { assert Last(rows) in rows; }
  }

  lemma OutbidOkGrows(events: seq<Event>, rows: seq<BidRow>, row: BidRow)
    requires OutbidOk(events, rows)
    ensures rows == [] ==> OutbidOk(events, [row])
    ensures rows != [] ==> forall amount :: OutbidOk(events + [Outbid(Last(rows).bidder, amount)], rows + [row])
  {
    if rows != [] {
      forall amount ensures OutbidOk(events + [Outbid(Last(rows).bidder, amount)], rows + [row]) {
        OutbidNamesGrow(events, Outbid(Last(rows).bidder, amount));
        assert BiddersOf(rows + [row])[..|rows|] == BiddersOf(rows)[..|rows| - 1] + [Last(rows).bidder];
      }
    }
  }

  lemma RowsAreBacked(hasWallet: bool, rows: seq<BidRow>, holds: seq<Hold>)
    requires HoldsOk(hasWallet, rows, holds)
    ensures hasWallet ==> forall x <- rows :: x.hold.Some?
  {
  }

  /** Leading with a bid that may lead keeps the core and brings the listing up to the newest row. */
  lemma LeadKeepsCore(s: Store, row: BidRow, endTime: int, status: Status)
    requires Core(s) && CanLead(s, row.bidder, row.amount, row.time) && !HasId(s.bids, row.id)
    requires (s.hasWallet ==> row.hold.Some?) && status in {Active, Extended}
    ensures Current(Lead(s, row, Newest(s.bids), endTime, status))
  {
    hide RowsOk, ProxiesOk, HasId;
    if s.bids != [] { assert Last(s.bids) in s.bids; }
    RowsOkGrows(s.listing.terms, s.bids, row);
  }

  lemma MinimumTops(s: Store, amount: int)
    requires Core(s) && Minimum(s) <= amount
    ensures Tops(s.listing, amount)
  {
    hide RowsOk, ProxiesOk, HoldsOk, OutbidOk, LatestEnd, JobOk;
  }

  /** Leading with a bid that may lead, backed by the right holds, keeps the store in order. */
  lemma LeadKeepsInv(s: Store, proxies: seq<ProxyRow>, holds: seq<Hold>, row: BidRow, endTime: int, status: Status,
                     originalEnd: int)
    requires Inv(s, originalEnd) && CanLead(s, row.bidder, row.amount, row.time) && !HasId(s.bids, row.id)
    requires ProxiesOk(s.listing.terms, proxies)
    requires HoldsOk(s.hasWallet, s.bids + [row], holds) && NoneConverted(holds)
    requires endTime == Max(s.listing.endTime, row.time + ANTI_SNIPING_EXTENSION_SECS) && status in {Active, Extended}
    ensures Inv(Lead(s.(proxies := proxies, holds := holds), row, Newest(s.bids), endTime, status), originalEnd)
  {
    hide Core, CanLead, HoldsOk, OutbidOk, LatestEnd, NoneConverted, HasId, ProxiesOk, Minimum, Lead;
    var s0 := s.(proxies := proxies, holds := holds);
    CoreWithProxies(s, proxies, holds);
    CanLeadIgnoresMoney(s, s0, row);
    NewRowIsBacked(s.hasWallet, s.bids, row, holds);
    LeadKeepsCore(s0, row, endTime, status);
    MinimumTops(s, row.amount);
    LeadWrites(s0, row, endTime, status);
    OutbidOkGrows(s.outbox, s.bids, row);
    LatestEndGrows(originalEnd, s.bids, row);
    assert s.bids == [] ==> s.bids + [row] == [row];
  }

  lemma LeadWrites(s: Store, row: BidRow, endTime: int, status: Status)
    requires Tops(s.listing, row.amount) && (s.bids != [] ==> Last(s.bids).bidder != row.bidder)
    ensures var s' := Lead(s, row, Newest(s.bids), endTime, status);
            && s'.bids == s.bids + [row] && s'.holds == s.holds && s'.hasWallet == s.hasWallet
            && s'.listing.endTime == endTime && s'.listing.status == status
            && s'.job == UpsertPending(s.job, endTime)
            && s'.outbox == if s.bids == [] then s.outbox else s.outbox + [Outbid(Last(s.bids).bidder, row.amount)]
  {
  }

  lemma CoreWithProxies(s: Store, proxies: seq<ProxyRow>, holds: seq<Hold>)
    requires Core(s) && ProxiesOk(s.listing.terms, proxies)
    ensures Core(s.(proxies := proxies, holds := holds))
  {
  }

  lemma CanLeadIgnoresMoney(s: Store, s0: Store, row: BidRow)
    requires CanLead(s, row.bidder, row.amount, row.time) && s0.listing == s.listing && s0.bids == s.bids
    ensures CanLead(s0, row.bidder, row.amount, row.time)
    ensures Open(s.listing.status) && Minimum(s) <= row.amount && (s.bids != [] ==> Last(s.bids).bidder != row.bidder)
  {
  }

  lemma NewRowIsBacked(hasWallet: bool, rows: seq<BidRow>, row: BidRow, holds: seq<Hold>)
    requires HoldsOk(hasWallet, rows + [row], holds)
    ensures hasWallet ==> row.hold.Some?
  {
    assert (rows + [row])[|rows|] == row;
  }

  // ----- money movements that leave the rows alone

  lemma ReleaseKeepsHoldsOk(hasWallet: bool, rows: seq<BidRow>, holds: seq<Hold>, h: Option<nat>)
    requires HoldsOk(hasWallet, rows, holds)
    ensures HoldsOk(hasWallet, rows, Release(holds, h))
    ensures NoneConverted(holds) ==> NoneConverted(Release(holds, h))
  {
  }

  /** Once the newest row's hold is not live nothing is, so a fresh hold may back a new row. */
  lemma FreshHoldBacksRow(s: Store, row: BidRow)
    requires HoldsOk(s.hasWallet, s.bids, s.holds) && NoneConverted(s.holds)
    requires row.hold == HoldFunds(s, row.bidder, row.amount).1
    requires s.hasWallet && s.bids != [] ==> !IsLive(s.holds, Last(s.bids).hold)
    ensures HoldsOk(s.hasWallet, s.bids + [row], HoldFunds(s, row.bidder, row.amount).0.holds)
    ensures NoneConverted(HoldFunds(s, row.bidder, row.amount).0.holds)
    ensures s.hasWallet ==> IsLive(HoldFunds(s, row.bidder, row.amount).0.holds, row.hold)
  {
  }

  lemma InvWithMaximum(s: Store, r: Request, originalEnd: int)
    requires Inv(s, originalEnd) && r.bidder != s.listing.terms.seller
    ensures Inv(WithMaximum(s, r), originalEnd)
  {
    if r.Proxy? {
      UpsertKeepsBiddersDistinct(s.proxies, r.bidder, r.max, r.time);
    }
  }

  lemma ReleaseKeepsInv(s: Store, h: Option<nat>, originalEnd: int)
    requires Inv(s, originalEnd) && Open(s.listing.status)
    ensures Inv(ReleaseHold(s, h), originalEnd)
  {
    if s.hasWallet { ReleaseKeepsHoldsOk(true, s.bids, s.holds, h); }
  }

  /** A hold taken for a row that is not written leaves the rows' own holds alone, whether it is given back or not. */
  lemma HoldUndoneKeepsInv(s: Store, user: string, cents: int, ok: bool, originalEnd: int)
    requires Inv(s, originalEnd) && Open(s.listing.status)
    ensures var (s1, h) := HoldFunds(s, user, cents); Inv(UndoHold(s1, h, ok), originalEnd)
  {
    hide RowsOk, ProxiesOk, OutbidOk, LatestEnd, CacheOk, TermsOk;
  }

  /** A caller's bid that is not persisted leaves rows and listing alone, and the store in order. */
  lemma FailedCommitKeepsInv(s: Store, r: Request, accepted: Accepted, status: Status, e: Env, originalEnd: int)
    requires Inv(s, originalEnd) && Open(s.listing.status) && r.bidder != s.listing.terms.seller
    requires Commit(s, r, accepted, status, e).1.Err?
    ensures Inv(Commit(s, r, accepted, status, e).0, originalEnd)
    ensures var s1 := Commit(s, r, accepted, status, e).0;
            s1 == s.(proxies := WithMaximum(s, r).proxies, holds := s1.holds)
  {
    hide Inv, Winner, InsertFails, Lead;
    InvWithMaximum(s, r, originalEnd);
    var previous := Winner(s.bids);
    var s1 := WithMaximum(s, r);
    var s2 := if previous.Some? && previous.value.bidder != r.bidder then ReleaseHold(s1, previous.value.hold) else s1;
    if previous.Some? { ReleaseKeepsInv(s1, previous.value.hold, originalEnd); }
    HoldUndoneKeepsInv(s2, r.bidder, accepted.newHighest.amount, e.undoOk, originalEnd);
  }

  /** The store a persisted caller's bid leaves behind. */
  predicate Persisted(s: Store, r: Request, row: BidRow, s': Store) {
    && s'.bids == s.bids + [row] && !HasId(s.bids, row.id)
    && row.bidder == r.bidder && row.time == r.time
    && s'.proxies == WithMaximum(s, r).proxies
    && s'.listing.terms == s.listing.terms && s'.hasWallet == s.hasWallet
    && s'.listing.status in {Active, Extended}
    && s'.listing.endTime == Max(s.listing.endTime, r.time + ANTI_SNIPING_EXTENSION_SECS)
    && (s.hasWallet ==> IsLive(s'.holds, row.hold))
  }

  /** The store in which a displacing call asks for its hold: maximum noted, the displaced hold released. */
  function Cleared(s: Store, r: Request): Store {
    if s.bids == [] then WithMaximum(s, r) else ReleaseHold(WithMaximum(s, r), Last(s.bids).hold)
  }

  lemma CommitLeads(s: Store, r: Request, accepted: Accepted, status: Status, e: Env)
    requires Winner(s.bids) == Newest(s.bids) && (s.bids != [] ==> Last(s.bids).bidder != r.bidder)
    requires Commit(s, r, accepted, status, e).1.Ok?
    ensures var amount := accepted.newHighest.amount;
            var (s3, hold) := HoldFunds(Cleared(s, r), r.bidder, amount);
            var row := BidRow(e.bidId, r.bidder, amount, r.time, hold);
            && Commit(s, r, accepted, status, e) == (Lead(s3, row, Newest(s.bids), accepted.newEndAt, status), Ok(row))
            && !HasId(s.bids, row.id)
  {
    hide Winner, HasId, Lead, UpsertMax, Release;
  }

  lemma ClearedIsInOrder(s: Store, r: Request, originalEnd: int)
    requires Inv(s, originalEnd) && Open(s.listing.status) && r.bidder != s.listing.terms.seller
    ensures Inv(Cleared(s, r), originalEnd)
    ensures Cleared(s, r) == s.(proxies := WithMaximum(s, r).proxies, holds := Cleared(s, r).holds)
    ensures s.hasWallet && s.bids != [] ==> !IsLive(Cleared(s, r).holds, Last(s.bids).hold)
  {
    hide Inv;
    InvWithMaximum(s, r, originalEnd);
    if s.bids != [] { ReleaseKeepsInv(WithMaximum(s, r), Last(s.bids).hold, originalEnd); }
  }

  lemma LeadPersists(s: Store, r: Request, row: BidRow, s3: Store, endTime: int, status: Status)
    requires s3 == s.(proxies := WithMaximum(s, r).proxies, holds := s3.holds)
    requires !HasId(s.bids, row.id) && row.bidder == r.bidder && row.time == r.time && Tops(s.listing, row.amount)
    requires endTime == Max(s.listing.endTime, r.time + ANTI_SNIPING_EXTENSION_SECS) && status in {Active, Extended}
    requires s.hasWallet ==> IsLive(s3.holds, row.hold)
    ensures Persisted(s, r, row, Lead(s3, row, Newest(s.bids), endTime, status))
  {
    hide WithMaximum, HasId;
  }

  lemma CommittedRowKeepsInv(s: Store, r: Request, accepted: Accepted, status: Status, e: Env, originalEnd: int)
    requires Inv(s, originalEnd) && CanLead(s, r.bidder, accepted.newHighest.amount, r.time)
    requires accepted.newEndAt == Max(s.listing.endTime, r.time + ANTI_SNIPING_EXTENSION_SECS)
             && status in {Active, Extended}
    requires Commit(s, r, accepted, status, e).1.Ok?
    ensures var (s', result) := Commit(s, r, accepted, status, e);
            && Inv(s', originalEnd)
            && Persisted(s, r, result.value, s')
            && result.value.amount == accepted.newHighest.amount
  {
    hide Commit, Cleared, WithMaximum, Lead, Persisted, Tops, Minimum, TermsOk, CacheOk, RowsOk, ProxiesOk, HoldsOk,
      OutbidOk, LatestEnd, NoneConverted, HasId, Winner;
    WinnerIsNewest(s.listing.terms, s.bids);
    CommitLeads(s, r, accepted, status, e);
    ClearedIsInOrder(s, r, originalEnd);
    var (s3, hold) := HoldFunds(Cleared(s, r), r.bidder, accepted.newHighest.amount);
    var row := BidRow(e.bidId, r.bidder, accepted.newHighest.amount, r.time, hold);
    FreshHoldBacksRow(Cleared(s, r), row);
    MinimumTops(s, row.amount);
    LeadPersists(s, r, row, s3, accepted.newEndAt, status);
    LeadKeepsInv(s, s3.proxies, s3.holds, row, accepted.newEndAt, status, originalEnd);
    assert s3 == s.(proxies := s3.proxies, holds := s3.holds);
  }

  /** The caller's part of a call keeps the store in order at every exit. */
  lemma CommitKeepsInv(s: Store, r: Request, e: Env, originalEnd: int)
    requires Inv(s, originalEnd) && Admit(s, r, e.catalogOk).Admitted?
    ensures var a := Admit(s, r, e.catalogOk);
            var (s1, result) := Commit(s, r, a.accepted, a.status, e);
            && Inv(s1, originalEnd)
            && (result.Err? ==> s1 == s.(proxies := WithMaximum(s, r).proxies, holds := s1.holds))
            && (result.Ok? ==> Persisted(s, r, result.value, s1))
  {
    hide Inv, Commit, Persisted;
    var a := Admit(s, r, e.catalogOk);
    InvIsCore(s, originalEnd);
    AdmittedBidCanLead(s, r, e.catalogOk);
    if Commit(s, r, a.accepted, a.status, e).1.Ok? {
      CommittedRowKeepsInv(s, r, a.accepted, a.status, e, originalEnd);
    } else {
      FailedCommitKeepsInv(s, r, a.accepted, a.status, e, originalEnd);
    }
  }

  // ----- what a call keeps even when the store was out of step

  lemma ProxiesWithMaximum(s: Store, r: Request)
    requires Core(s) && r.bidder != s.listing.terms.seller
    ensures Core(WithMaximum(s, r))
    ensures WithMaximum(s, r) == s.(proxies := WithMaximum(s, r).proxies)
  {
    if r.Proxy? { UpsertKeepsBiddersDistinct(s.proxies, r.bidder, r.max, r.time); }
  }

  lemma CoreIgnoresMoney(s: Store, holds: seq<Hold>, job: Option<Job>, outbox: seq<Event>)
    requires Core(s)
    ensures Core(s.(holds := holds, job := job, outbox := outbox))
  {
  }

  lemma FailedCommitLeavesTables(s: Store, r: Request, accepted: Accepted, status: Status, e: Env)
    requires Commit(s, r, accepted, status, e).1.Err?
    ensures var s1 := Commit(s, r, accepted, status, e).0;
            s1 == s.(proxies := WithMaximum(s, r).proxies, holds := s1.holds)
  {
    hide Winner, HasId, Lead, UpsertMax, Release;
  }

  lemma ClearedTables(s: Store, r: Request)
    ensures Cleared(s, r) == s.(proxies := WithMaximum(s, r).proxies, holds := Cleared(s, r).holds)
  {
    hide UpsertMax, Release;
  }

  /** The caller's part of a call keeps the core at every exit; a persisted bid brings the listing up to it. */
  lemma CommitKeepsCore(s: Store, r: Request, e: Env)
    requires Core(s) && Admit(s, r, e.catalogOk).Admitted?
    ensures var a := Admit(s, r, e.catalogOk);
            var (s1, result) := Commit(s, r, a.accepted, a.status, e);
            && Core(s1)
            && (result.Err? ==> s1 == s.(proxies := WithMaximum(s, r).proxies, holds := s1.holds))
            && (result.Ok? ==> Current(s1) && Persisted(s, r, result.value, s1))
  {
    hide Core, Commit, Cleared, WithMaximum, Lead, Persisted, Admit, Current, Minimum, Release;
    var a := Admit(s, r, e.catalogOk);
    var (s1, result) := Commit(s, r, a.accepted, a.status, e);
    AdmittedBidCanLead(s, r, e.catalogOk);
    ProxiesWithMaximum(s, r);
    if result.Err? {
      FailedCommitLeavesTables(s, r, a.accepted, a.status, e);
      CoreIgnoresMoney(WithMaximum(s, r), s1.holds, s.job, s.outbox);
    } else {
      CoreWinner(s);
      CommitLeads(s, r, a.accepted, a.status, e);
      ClearedTables(s, r);
      var (s3, hold) := HoldFunds(Cleared(s, r), r.bidder, a.accepted.newHighest.amount);
      var row := BidRow(e.bidId, r.bidder, a.accepted.newHighest.amount, r.time, hold);
      CoreIgnoresMoney(WithMaximum(s, r), s3.holds, s.job, s.outbox);
      SameMinimum(s, s3);
      LeadKeepsCore(s3, row, a.accepted.newEndAt, a.status);
      MinimumTops(s, row.amount);
      LeadPersists(s, r, row, s3, a.accepted.newEndAt, a.status);
      CurrentIsCore(s1);
    }
  }

  lemma SameMinimum(s: Store, s3: Store)
    requires s3.bids == s.bids && s3.listing == s.listing
    ensures Minimum(s3) == Minimum(s)
  {
  }

  lemma CurrentIsCore(s: Store)
    requires Current(s)
    ensures Core(s)
  {
  }
}
