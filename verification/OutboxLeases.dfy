/**
 * Several workers drain one outbox: each selects eligible events, leases them one by one with a conditional
 * update, publishes what it leased and marks every event published or failed.
 */
module OutboxLeases {
  import opened Wrappers

  const LEASE_SECS := 60

  datatype EventRow = EventRow(
    createdAt: int, published: bool, nextAttemptAt: int, lockedUntil: Option<int>, attempts: nat)

  /** The lock is absent or has run out. */
  predicate Unlocked(row: EventRow, now: int) { row.lockedUntil.None? || row.lockedUntil.value <= now }

  predicate Eligible(row: EventRow, now: int) { !row.published && row.nextAttemptAt <= now && Unlocked(row, now) }

  /** A possible answer of the selecting query: the oldest eligible events, up to the limit; a negative one is none. */
  predicate MaySelect(rows: seq<EventRow>, now: int, limit: int, picked: seq<nat>) {
    && (0 <= limit ==> |picked| <= limit)
    && (forall i | 0 <= i < |picked| :: picked[i] < |rows| && Eligible(rows[picked[i]], now))
    && (forall i, j | 0 <= i < j < |picked| ::
          picked[i] != picked[j] && rows[picked[i]].createdAt <= rows[picked[j]].createdAt)
    && (forall k | 0 <= k < |rows| && Eligible(rows[k], now) && k !in picked ::
          0 <= limit == |picked| && forall i | 0 <= i < |picked| :: rows[picked[i]].createdAt <= rows[k].createdAt)
  }

  // ----- single statements

  /** The guard of the conditional update; it does not look at the next attempt time again. */
  predicate ClaimSucceeds(row: EventRow, now: int) { !row.published && Unlocked(row, now) }

  function Leased(row: EventRow, now: int): EventRow { row.(lockedUntil := Some(now + LEASE_SECS)) }

  function MarkPublished(row: EventRow): EventRow { row.(published := true, lockedUntil := None) }

  function MarkFailed(row: EventRow, retryAt: int): EventRow {
    row.(attempts := row.attempts + 1, nextAttemptAt := retryAt, lockedUntil := None)
  }

  function Pow2(n: nat): nat { if n == 0 then 1 else 2 * Pow2(n - 1) }

  /** The delay after the k-th failure of one batch. */
  function RetryDelay(failureIndex: nat): int { Min(Pow2(Min(Max(failureIndex - 1, 0), 6)), 60) }

  lemma PowersBelow64(n: nat)
    requires n <= 6
    ensures Pow2(n) == [1, 2, 4, 8, 16, 32, 64][n]
  {
    assert Pow2(2) == 4;
    assert Pow2(4) == 16;
    assert Pow2(6) == 64;
  }

  /** The delay starts at one second and doubles until it stays at sixty. */
  lemma RetryDelayDoublesToCap(k: nat)
    requires 1 <= k
    ensures RetryDelay(1) == 1
    ensures RetryDelay(k + 1) == Min(2 * RetryDelay(k), 60)
  {
    PowersBelow64(Min(k - 1, 6));
    PowersBelow64(Min(k, 6));
  }

  // ----- workers

  /** A worker remembers the clock it read and how long the log was when it selected; what it leased is named by the
      log positions of its leases. */
  datatype Worker =
    | Idle
    | Claiming(now: int, since: nat, left: seq<nat>, leases: seq<nat>)
    | Publishing(leases: seq<nat>, failed: nat)

  /** What happened to an event: a lease, or a mark by the holder of an earlier lease (`retryAt` is None when
      published). */
  datatype Entry =
    | Lease(event: nat, worker: nat, at: int, now: int, since: nat)
    | Mark(event: nat, at: int, lease: nat, retryAt: Option<int>)
  {
    function Until(): int
      requires Lease?
    {
      now + LEASE_SECS
    }
  }

  datatype World = World(rows: seq<EventRow>, workers: seq<Worker>, log: seq<Entry>)

  /** Each action carries the clock at which it happens. */
  datatype Action =
    | Select(at: int, limit: int, picked: seq<nat>)
    | Claim(at: int)
    | Report(at: int, ok: bool)

  function LeaseEvent(w: World, i: nat, at: int, worker: Worker): World
    requires i < |w.workers| && worker.Claiming? && worker.left != [] && worker.left[0] < |w.rows|
  {
    var event := worker.left[0];
    World(w.rows[event := Leased(w.rows[event], worker.now)],
          w.workers[i := worker.(left := worker.left[1..], leases := worker.leases + [|w.log|])],
          w.log + [Lease(event, i, at, worker.now, worker.since)])
  }

  function MarkEvent(w: World, i: nat, at: int, worker: Worker, ok: bool): World
    requires i < |w.workers| && worker.Publishing? && worker.leases != []
    requires worker.leases[0] < |w.log| && w.log[worker.leases[0]].event < |w.rows|
  {
    var event := w.log[worker.leases[0]].event;
    var retryAt := if ok then None else Some(at + RetryDelay(worker.failed + 1));
    World(w.rows[event := if ok then MarkPublished(w.rows[event]) else MarkFailed(w.rows[event], retryAt.value)],
          w.workers[i := Publishing(worker.leases[1..], if ok then worker.failed else worker.failed + 1)],
          w.log + [Mark(event, at, worker.leases[0], retryAt)])
  }

  function Step(w: World, i: nat, a: Action): (r: World)
    requires i < |w.workers|
    ensures |r.workers| == |w.workers|
  {
    var worker := w.workers[i];
    match (a, worker)
    case (Select(at, limit, picked), Idle) =>
      if MaySelect(w.rows, at, limit, picked) then w.(workers := w.workers[i := Claiming(at, |w.log|, picked, [])])
      else w
    case (Claim(at), Claiming(now, since, left, leases)) =>
      if left == [] then w.(workers := w.workers[i := Publishing(leases, 0)])
      else if left[0] < |w.rows| && ClaimSucceeds(w.rows[left[0]], now) then LeaseEvent(w, i, at, worker)
      else w.(workers := w.workers[i := worker.(left := left[1..])])
    case (Report(at, ok), Publishing(leases, failed)) =>
      if leases == [] then w.(workers := w.workers[i := Idle])
      else if leases[0] < |w.log| && w.log[leases[0]].event < |w.rows| then MarkEvent(w, i, at, worker, ok)
      else w
    case (_, _) => w
  }

  function Run(w: World, turns: seq<(nat, Action)>): (r: World)
    requires forall t <- turns :: t.0 < |w.workers|
    ensures |r.workers| == |w.workers|
    decreases turns
  {
    if turns == [] then w
    else
      assert turns[0] in turns;
      Run(Step(w, turns[0].0, turns[0].1), turns[1..])
  }

  function Start(rows: seq<EventRow>, workers: nat): World { World(rows, seq(workers, _ => Idle), []) }

  // ----- composing runs

  lemma {:induction false} RunThenRun(w: World, a: seq<(nat, Action)>, b: seq<(nat, Action)>)
    requires forall t <- a + b :: t.0 < |w.workers|
    ensures |Run(w, a).workers| == |w.workers| && Run(w, a + b) == Run(Run(w, a), b)
    decreases a
  {
    if a == [] {
      assert a + b == b;
    } else {
      assert (a + b)[1..] == a[1..] + b;
      assert (a + b)[0] == a[0] && a[0] in a + b;
      RunThenRun(Step(w, a[0].0, a[0].1), a[1..], b);
    }
  }

  lemma OneTurn(w: World, t: (nat, Action))
    requires t.0 < |w.workers|
    ensures Run(w, [t]) == Step(w, t.0, t.1)
  {
    hide Step;
    assert Run(Step(w, t.0, t.1), []) == Step(w, t.0, t.1);
  }

  // ----- leases of one event exclude each other

  /** No mark on the event strictly between two places of the log. */
  predicate Unmarked(log: seq<Entry>, event: nat, i: int, j: int) {
    forall k | i < k < j && 0 <= k < |log| :: !(log[k].Mark? && log[k].event == event)
  }

  /** Without a mark in between, the later lease was asked for after the earlier one ran out. */
  predicate LeasesExclude(log: seq<Entry>) {
    forall i, j | 0 <= i < j < |log| && log[i].Lease? && log[j].Lease? && log[i].event == log[j].event
                  && Unmarked(log, log[i].event, i, j) :: log[i].Until() <= log[j].now
  }

  predicate Publishes(e: Entry) { e.Mark? && e.retryAt.None? }

  /** Nothing leases an event after it is marked published. */
  predicate PublishedIsFinal(log: seq<Entry>) {
    forall i, j | 0 <= i < j < |log| && Publishes(log[i]) && log[j].Lease? :: log[i].event != log[j].event
  }

  /** The table tells what the log says: an unmarked lease keeps its lock, a published event stays published. */
  predicate TableTells(w: World) {
    && (forall i | 0 <= i < |w.log| :: w.log[i].event < |w.rows|)
    && (forall i | 0 <= i < |w.log| && w.log[i].Lease? && Unmarked(w.log, w.log[i].event, i, |w.log|) ::
          w.rows[w.log[i].event].lockedUntil.Some? && w.log[i].Until() <= w.rows[w.log[i].event].lockedUntil.value)
    && (forall i | 0 <= i < |w.log| && Publishes(w.log[i]) :: w.rows[w.log[i].event].published)
  }

  predicate InOrder(w: World) { TableTells(w) && LeasesExclude(w.log) && PublishedIsFinal(w.log) }

  lemma UnmarkedShrinks(log: seq<Entry>, e: Entry, event: nat, i: int, j: int)
    requires j <= |log|
    ensures Unmarked(log + [e], event, i, j) <==> Unmarked(log, event, i, j)
  {
    assert forall k | 0 <= k < |log| :: (log + [e])[k] == log[k];
  }

  lemma UnmarkedGrows(log: seq<Entry>, e: Entry, event: nat, i: int)
    requires 0 <= i < |log|
    ensures Unmarked(log + [e], event, i, |log| + 1)
            <==> Unmarked(log, event, i, |log|) && !(e.Mark? && e.event == event)
  {
    UnmarkedShrinks(log, e, event, i, |log|);
    assert (log + [e])[|log|] == e;
  }

  /** A lease goes only to an unpublished event whose lock has run out. */
  lemma LeaseKeepsOrder(w: World, e: Entry, workers: seq<Worker>)
    requires InOrder(w) && e.Lease? && e.event < |w.rows| && ClaimSucceeds(w.rows[e.event], e.now)
    ensures InOrder(World(w.rows[e.event := Leased(w.rows[e.event], e.now)], workers, w.log + [e]))
  {
    hide Unmarked;
    var log := w.log + [e];
    forall i, j | 0 <= i < j < |log| && log[i].Lease? && log[j].Lease? && log[i].event == log[j].event
                  && Unmarked(log, log[i].event, i, j)
      ensures log[i].Until() <= log[j].now
    {
      UnmarkedShrinks(w.log, e, log[i].event, i, j);
    }
    forall i | 0 <= i < |log| && log[i].Lease? && Unmarked(log, log[i].event, i, |log|)
      ensures i == |w.log| || Unmarked(w.log, log[i].event, i, |w.log|)
    {
      if i < |w.log| { UnmarkedGrows(w.log, e, log[i].event, i); }
    }
  }

  lemma MarkKeepsOrder(w: World, e: Entry, row: EventRow, workers: seq<Worker>)
    requires InOrder(w) && e.Mark? && e.event < |w.rows|
    requires row.published == (e.retryAt.None? || w.rows[e.event].published)
    ensures InOrder(World(w.rows[e.event := row], workers, w.log + [e]))
  {
    hide Unmarked;
    var log := w.log + [e];
    forall i, j | 0 <= i < j < |log| && log[i].Lease? && log[j].Lease? && log[i].event == log[j].event
                  && Unmarked(log, log[i].event, i, j)
      ensures log[i].Until() <= log[j].now
    {
      UnmarkedShrinks(w.log, e, log[i].event, i, j);
    }
    forall i | 0 <= i < |log| && log[i].Lease? && Unmarked(log, log[i].event, i, |log|)
      ensures log[i].event != e.event && Unmarked(w.log, log[i].event, i, |w.log|)
    {
      UnmarkedGrows(w.log, e, log[i].event, i);
    }
  }

  lemma StepKeepsOrder(w: World, i: nat, a: Action)
    requires InOrder(w) && i < |w.workers|
    ensures InOrder(Step(w, i, a))
  {
    hide LeasesExclude, PublishedIsFinal, MaySelect, Unmarked, RetryDelay;
    var w' := Step(w, i, a);
    if |w.log| < |w'.log| {
      var e := w'.log[|w.log|];
      if e.Lease? {
        LeaseKeepsOrder(w, e, w'.workers);
      } else {
        MarkKeepsOrder(w, e, w'.rows[e.event], w'.workers);
      }
    }
  }

  lemma {:induction false} RunKeepsOrder(w: World, turns: seq<(nat, Action)>)
    requires InOrder(w) && forall t <- turns :: t.0 < |w.workers|
    ensures InOrder(Run(w, turns))
    decreases turns
  {
    hide InOrder;
    if turns != [] {
      assert turns[0] in turns;
      StepKeepsOrder(w, turns[0].0, turns[0].1);
      RunKeepsOrder(Step(w, turns[0].0, turns[0].1), turns[1..]);
    }
  }

  /** However the workers interleave, two leases of one event overlap only across a mark on it, and a published event
      is never leased again. */
  lemma LeasesNeverOverlap(rows: seq<EventRow>, workers: nat, turns: seq<(nat, Action)>)
    requires forall t <- turns :: t.0 < workers
    ensures LeasesExclude(Run(Start(rows, workers), turns).log)
    ensures PublishedIsFinal(Run(Start(rows, workers), turns).log)
  {
    RunKeepsOrder(Start(rows, workers), turns);
  }
}
