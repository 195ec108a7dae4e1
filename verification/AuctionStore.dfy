/** Everything persisted about one auction, and how each service call changes it. */
module AuctionStore {
  import opened Wrappers
  import opened AuctionSession
  import opened BidTable
  import opened ProxyTable
  import opened HoldLedger
  import opened BidValidation

  datatype JobStatus = Pending | Processing | Settling | Done

  datatype Job = Job(dueAt: int, status: JobStatus, attempts: nat, lockedUntil: Option<int>)

  datatype Event =
    | AuctionCreated(endTime: int)
    | BidPlaced(bidId: string, bidder: string, amount: int, endTime: int)
    | Outbid(previous: string, amount: int)
    | AuctionEnded(status: Status, winner: Option<string>, finalPrice: Option<int>)

  datatype Store = Store(
    listing: Listing, bids: seq<BidRow>, proxies: seq<ProxyRow>, job: Option<Job>,
    outbox: seq<Event>, holds: seq<Hold>, hasWallet: bool)

  // ----- requests, faults and replies

  datatype Request =
    | Standard(bidder: string, amount: int, time: int)
    | Proxy(bidder: string, max: int, time: int)

  /** The fresh ids a call draws, and how the catalogue, the wallet and the bid inserts answer it. The undo answers are
      those to giving a hold back when what it was taken for is not written; the service ignores them. */
  datatype Env = Env(
    catalogOk: bool, bidId: string, releaseOk: bool, holdOk: bool, insertOk: bool, undoOk: bool,
    autoBidId: string, autoHoldOk: bool, autoInsertOk: bool, autoReleaseOk: bool, autoUndoOk: bool)

  datatype Reply =
    | Placed(row: BidRow)
    | Rejected(error: BidError)
    | CatalogRefused
    | WalletFailed
    | DatabaseFailed

  // ----- small writes

  function HoldFunds(s: Store, user: string, cents: int): (r: (Store, Option<nat>))
    ensures r.1.Some? <==> s.hasWallet
  {
    if s.hasWallet then (s.(holds := s.holds + [Hold(user, Rupiah(cents), Live)]), Some(|s.holds|)) else (s, None)
  }

  function ReleaseHold(s: Store, h: Option<nat>): Store {
    if s.hasWallet then s.(holds := Release(s.holds, h)) else s
  }

  function UndoHold(s: Store, h: Option<nat>, ok: bool): Store { if ok then ReleaseHold(s, h) else s }

  function Emit(s: Store, event: Event): Store { s.(outbox := s.outbox + [event]) }

  /** Schedule the closure at the end time, without reopening a job that is settling or done. */
  function UpsertPending(job: Option<Job>, dueAt: int): Option<Job> {
    match job
    case None => Some(Job(dueAt, Pending, 0, None))
    case Some(j) => Some(Job(dueAt, if j.status in {Done, Settling} then j.status else Pending, j.attempts, None))
  }

  predicate Tops(l: Listing, amount: int) { l.cachedHighest.None? || l.cachedHighest.value < amount }

  /** The row raised in place, if it is there and below the new amount. */
  function RaiseRow(rows: seq<BidRow>, id: string, amount: int, time: int, hold: Option<nat>): seq<BidRow> {
    seq(|rows|, i requires 0 <= i < |rows| =>
      if rows[i].id == id && rows[i].amount < amount then rows[i].(amount := amount, time := time, hold := hold)
      else rows[i])
  }

  // ----- admission

  datatype Admission =
    | Replayed(row: BidRow)
    | Refused(reply: Reply)
    | MaxRaised(row: BidRow)
    | Admitted(accepted: Accepted, status: Status)

  function Verdicted(answer: (Session, Verdict)): Admission {
    match answer.1
    case Err(e) => Refused(Rejected(e))
    case Ok(accepted) =>
      match WalletPolicy(accepted.newHighest.amount)
      case Some(e) => Refused(Rejected(e))
      case None => Admitted(accepted, answer.0.status)
  }

  function AdmitStandard(s: Store, bidder: string, amount: int, time: int): Admission {
    var winner := Winner(s.bids);
    match Validate(STANDARD_BID, Context(s.listing, bidder, time, amount, winner))
    case Some(e) => Refused(Rejected(e))
    case None => Verdicted(ToSession(s.listing, winner).PlaceBid(bidder, AsU64(amount), AsU64(time)))
  }

  /** The leader only changes its maximum; anyone else leads at the minimum. */
  function AdmitProxy(s: Store, bidder: string, max: int, time: int): Admission {
    var winner := Winner(s.bids);
    if TimePolicy(s.listing, time).Some? then Refused(Rejected(TimePolicy(s.listing, time).value))
    else if winner.Some? && winner.value.bidder == bidder then
      if bidder == s.listing.terms.seller then Refused(Rejected(SelfBiddingNotAllowed(bidder)))
      else if max < winner.value.amount then Refused(Rejected(BidTooLow(AsU64(winner.value.amount))))
      else if WalletPolicy(max).Some? then Refused(Rejected(WalletPolicy(max).value))
      else MaxRaised(winner.value)
    else if IdentityPolicy(s.listing, bidder, winner).Some? then
      Refused(Rejected(IdentityPolicy(s.listing, bidder, winner).value))
    else Verdicted(ToSession(s.listing, winner).PlaceProxyBid(bidder, AsU64(max), AsU64(time)))
  }

  function Admit(s: Store, r: Request, catalogOk: bool): Admission {
    if r.Standard? && Matching(s.bids, r.bidder, r.amount, r.time).Some? then
      Replayed(Matching(s.bids, r.bidder, r.amount, r.time).value)
    else if !catalogOk then Refused(CatalogRefused)
    else match r
      case Standard(bidder, amount, time) => AdmitStandard(s, bidder, amount, time)
      case Proxy(bidder, max, time) => AdmitProxy(s, bidder, max, time)
  }

  // ----- committing the caller's bid

  function WithMaximum(s: Store, r: Request): Store {
    match r
    case Standard(_, _, _) => s
    case Proxy(bidder, max, time) => s.(proxies := UpsertMax(s.proxies, bidder, max, time))
  }

  predicate InsertFails(s: Store, id: string, ok: bool) { !ok || HasId(s.bids, id) }

  /** Tell the displaced bidder, advance the listing if the row tops it, and reschedule the closure. */
  function Announce(s: Store, row: BidRow, previous: Option<BidRow>, endTime: int, status: Status): Store {
    var told := if previous.Some? && previous.value.bidder != row.bidder
                then Emit(s, Outbid(previous.value.bidder, row.amount)) else s;
    var listing := if Tops(s.listing, row.amount)
                   then s.listing.(cachedHighest := Some(row.amount), endTime := endTime, status := status)
                   else s.listing;
    told.(listing := listing, job := UpsertPending(s.job, listing.endTime))
  }

  /** The row is in the table and announced. */
  function Lead(s: Store, row: BidRow, previous: Option<BidRow>, endTime: int, status: Status): Store {
    Announce(s.(bids := s.bids + [row]), row, previous, endTime, status)
  }

  /** Move the money: the displaced leader is released before the new hold is asked for. */
  function SwapHolds(s: Store, previous: Option<BidRow>, bidder: string, amount: int, e: Env)
    : (Store, Result<Option<nat>, Reply>)
  {
    var displaces := previous.Some? && previous.value.bidder != bidder;
    if s.hasWallet && displaces && previous.value.hold.Some? && !e.releaseOk then (s, Err(WalletFailed))
    else
      var released := if displaces then ReleaseHold(s, previous.value.hold) else s;
      if s.hasWallet && !e.holdOk then (released, Err(WalletFailed))
      else var (held, hold) := HoldFunds(released, bidder, amount); (held, Ok(hold))
  }

  /** Note a proxy's maximum, move the money, insert the row. */
  function Commit(s: Store, r: Request, accepted: Accepted, status: Status, e: Env): (Store, Result<BidRow, Reply>) {
    var previous, amount := Winner(s.bids), accepted.newHighest.amount;
    match SwapHolds(WithMaximum(s, r), previous, r.bidder, amount, e)
    case (s1, Err(reply)) => (s1, Err(reply))
    case (s1, Ok(hold)) =>
      var row := BidRow(e.bidId, r.bidder, amount, r.time, hold);
      if InsertFails(s1, row.id, e.insertOk) then (UndoHold(s1, hold, e.undoOk), Err(DatabaseFailed))
      else (Lead(s1, row, previous, accepted.newEndAt, status), Ok(row))
  }

  // ----- the automatic counter-bid

  datatype Plan =
    | Idle
    | Blocked(error: BidError)
    | Counter(bidder: string, current: BidRow, target: int, time: int, endTime: int, status: Status)
  {
    /** The top proxy already leads, so its own row is raised. */
    predicate Raises() { Counter? && bidder == current.bidder }
  }

  /** One increment above the best rival maximum, as far as the top proxy's own maximum reaches. */
  function Target(ps: seq<ProxyRow>, current: BidRow, increment: int): int
    requires ps != []
  {
    var top := Top(ps);
    var rival := CompetitorCap(ps, top.bidder);
    Min(top.max, (if rival.Some? then rival.value else current.amount) + increment)
  }

  function PlanCounter(s: Store, bidTime: int): Plan {
    var winner := Winner(s.bids);
    if s.proxies == [] || winner.None? then Idle
    else
      var top, current := Top(s.proxies), winner.value;
      var target := Target(s.proxies, current, s.listing.terms.increment);
      if target <= current.amount || top.max < current.amount + s.listing.terms.increment then Idle
      else if top.bidder == current.bidder then
        var end := if s.listing.endTime - (bidTime + 1) <= 120 then bidTime + 1 + 120 else s.listing.endTime;
        var status := if s.listing.endTime < end then Extended else s.listing.status;
        Counter(top.bidder, current, target, bidTime + 1, end, status)
      else
        match ToSession(s.listing, winner).PlaceBid(top.bidder, AsU64(target), AsU64(bidTime + 1))
        case (_, Err(e)) => Blocked(e)
        case (after, Ok(accepted)) => Counter(top.bidder, current, target, bidTime + 1, accepted.newEndAt, after.status)
  }

  /** The listing after a counter: the end time only ever moves later. */
  function Advance(l: Listing, amount: int, endTime: int, status: Status): Listing {
    l.(cachedHighest := Some(amount),
       endTime := if l.endTime < endTime then endTime else l.endTime,
       status := if l.endTime < endTime then status else l.status)
  }

  function PlaceCounter(s: Store, p: Plan, e: Env): (Store, Option<Reply>)
    requires p.Counter?
  {
    if s.hasWallet && !e.autoHoldOk then (s, Some(WalletFailed))
    else
      var (s1, hold) := HoldFunds(s, p.bidder, p.target);
      if p.Raises() && RaiseRow(s.bids, p.current.id, p.target, p.time, hold) == s.bids then
        (UndoHold(s1, hold, e.autoUndoOk), None)
      else if !p.Raises() && InsertFails(s1, e.autoBidId, e.autoInsertOk) then
        (UndoHold(s1, hold, e.autoUndoOk), Some(DatabaseFailed))
      else
        var row := if p.Raises() then p.current.(amount := p.target, time := p.time, hold := hold)
                   else BidRow(e.autoBidId, p.bidder, p.target, p.time, hold);
        var s2 := s1.(bids := if p.Raises() then RaiseRow(s.bids, p.current.id, p.target, p.time, hold)
                              else s.bids + [row]);
        if s.hasWallet && p.current.hold.Some? && !e.autoReleaseOk then (s2, Some(WalletFailed))
        else
          var s3 := ReleaseHold(s2, p.current.hold);
          var s4 := if p.Raises() then s3 else Emit(s3, Outbid(p.current.bidder, p.target));
          if !Tops(s4.listing, p.target) then
            var s5 := UndoHold(s4, hold, e.autoUndoOk);
            (if row.id != p.current.id then s5.(bids := Where(s5.bids, (x: BidRow) => x.id != row.id)) else s5, None)
          else
            var listing := Advance(s4.listing, p.target, p.endTime, p.status);
            var s5 := s4.(listing := listing, job := UpsertPending(s4.job, listing.endTime));
            (Emit(s5, BidPlaced(row.id, row.bidder, row.amount, listing.endTime)), None)
  }

  function ResolveProxies(s: Store, bidTime: int, e: Env): (Store, Option<Reply>) {
    match PlanCounter(s, bidTime)
    case Idle => (s, None)
    case Blocked(error) => (s, Some(Rejected(error)))
    case Counter(_, _, _, _, _, _) => PlaceCounter(s, PlanCounter(s, bidTime), e)
  }

  // ----- one bidding call

  function PlaceBid(s: Store, r: Request, e: Env): (Store, Reply) {
    match Admit(s, r, e.catalogOk)
    case Replayed(row) => (s, Placed(row))
    case Refused(reply) => (s, reply)
    case MaxRaised(row) => (WithMaximum(s, r), Placed(row))
    case Admitted(accepted, status) =>
      match Commit(s, r, accepted, status, e)
      case (s1, Err(reply)) => (s1, reply)
      case (s1, Ok(row)) =>
        match ResolveProxies(s1, r.time, e)
        case (s2, Some(reply)) => (s2, reply)
        case (s2, None) => (Emit(s2, BidPlaced(row.id, row.bidder, row.amount, s1.listing.endTime)), Placed(row))
  }

  function DeleteProxy(s: Store, bidder: string): Store { s.(proxies := DeleteFor(s.proxies, bidder)) }
}
