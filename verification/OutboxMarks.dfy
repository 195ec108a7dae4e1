/** When a mark frees an event that another worker holds. */
module OutboxMarks {
  import opened Wrappers
  import opened OutboxLeases
  import opened OutboxHolders

  /** The latest thing that happened to an event. */
  function LastEntry(log: seq<Entry>, event: nat): (r: Option<nat>)
    ensures r.Some? ==> r.value < |log| && log[r.value].event == event
    ensures r.Some? ==> forall k | r.value < k < |log| :: log[k].event != event
    ensures r.None? ==> forall k | 0 <= k < |log| :: log[k].event != event
  {
    if log == [] then None
    else if log[|log| - 1].event == event then Some(|log| - 1)
    else
      assert log == log[..|log| - 1] + [log[|log| - 1]];
      LastEntry(log[..|log| - 1], event)
  }

  /** The lock an event was given last: by a lease, or taken off by a mark. */
  function LockAfter(e: Entry): Option<int> { if e.Lease? then Some(e.Until()) else None }

  /** The lock in the table is the one the log gave last. */
  predicate LocksTell(w: World) {
    forall event | 0 <= event < |w.rows| && LastEntry(w.log, event).Some? ::
      w.rows[event].lockedUntil == LockAfter(w.log[LastEntry(w.log, event).value])
  }

  lemma LastEntryGrows(log: seq<Entry>, e: Entry, event: nat)
    ensures LastEntry(log + [e], event) == if e.event == event then Some(|log|) else LastEntry(log, event)
  {
    assert (log + [e])[..|log|] == log;
  }

  lemma StepKeepsLocks(w: World, i: nat, a: Action)
    requires LocksTell(w) && i < |w.workers|
    ensures LocksTell(Step(w, i, a))
  {
    hide MaySelect, LastEntry, RetryDelay;
    var w' := Step(w, i, a);
    if |w.log| < |w'.log| {
      var e := w'.log[|w.log|];
      forall event | 0 <= event < |w'.rows| && LastEntry(w'.log, event).Some?
        ensures w'.rows[event].lockedUntil == LockAfter(w'.log[LastEntry(w'.log, event).value])
      {
        LastEntryGrows(w.log, e, event);
      }
    }
  }

  // ----- whose leases are open

  predicate Distinct(events: seq<nat>) { forall a, b | 0 <= a < b < |events| :: events[a] != events[b] }

  /** The leases are of different events. */
  predicate OnceEach(log: seq<Entry>, leases: seq<nat>) {
    && (forall a | 0 <= a < |leases| :: leases[a] < |log|)
    && (forall a, b | 0 <= a < b < |leases| :: log[leases[a]].event != log[leases[b]].event)
  }

  /** A worker has each event at most once: among what it leased and has yet to lease or to mark. */
  predicate Batch(log: seq<Entry>, worker: Worker) {
    && OnceEach(log, Leases(worker))
    && (worker.Claiming? ==>
          && Distinct(worker.left)
          && forall p <- worker.leases :: p < |log| && log[p].event !in worker.left)
  }

  predicate Unended(log: seq<Entry>, q: nat) {
    forall k | 0 <= k < |log| && log[k].Mark? :: log[k].lease != q
  }

  /** Nobody but the worker that took it holds a lease, and that worker does until it marks it. */
  predicate OpenLeasesAreHeld(w: World) {
    forall q | 0 <= q < |w.log| && w.log[q].Lease? && Unended(w.log, q) ::
      w.log[q].worker < |w.workers| && q in Leases(w.workers[w.log[q].worker])
  }

  predicate Batches(w: World) {
    (forall n | 0 <= n < |w.workers| :: Batch(w.log, w.workers[n])) && OpenLeasesAreHeld(w)
  }

  lemma UnendedShrinks(log: seq<Entry>, e: Entry, q: nat)
    requires Unended(log + [e], q) && q < |log|
    ensures Unended(log, q) && !(e.Mark? && e.lease == q)
  {
    forall k | 0 <= k < |log| && log[k].Mark? ensures log[k].lease != q { assert (log + [e])[k] == log[k]; }
    assert (log + [e])[|log|] == e;
  }

  lemma BatchGrows(log: seq<Entry>, e: Entry, worker: Worker)
    requires Batch(log, worker)
    ensures Batch(log + [e], worker)
  {
  }

  lemma LeaseKeepsBatch(log: seq<Entry>, e: Entry, worker: Worker)
    requires Batch(log, worker) && worker.Claiming? && worker.left != [] && e.event == worker.left[0]
    ensures Batch(log + [e], worker.(left := worker.left[1..], leases := worker.leases + [|log|]))
  {
    forall a | 0 <= a < |worker.leases| ensures log[worker.leases[a]].event !in worker.left {
      assert worker.leases[a] in worker.leases;
    }
  }

  lemma MarkKeepsBatch(log: seq<Entry>, e: Entry, leases: seq<nat>, failed: nat)
    requires OnceEach(log, leases) && leases != []
    ensures Batch(log + [e], Publishing(leases[1..], failed))
  {
    assert forall a | 0 < a < |leases| :: leases[1..][a - 1] == leases[a];
  }

  lemma QuietStepKeepsBatches(w: World, i: nat, a: Action)
    requires Batches(w) && i < |w.workers| && Step(w, i, a).log == w.log
    ensures Batches(Step(w, i, a))
  {
    hide Unended, RetryDelay, OnceEach;
    var w' := Step(w, i, a);
    forall n | 0 <= n < |w'.workers| ensures Batch(w'.log, w'.workers[n]) {
      assert Batch(w.log, w.workers[n]) && Leases(w'.workers[n]) == Leases(w.workers[n]);
    }
  }

  lemma LeaseKeepsBatches(w: World, i: nat, at: int)
    requires Batches(w) && i < |w.workers|
    requires w.workers[i].Claiming? && w.workers[i].left != [] && w.workers[i].left[0] < |w.rows|
    ensures Batches(LeaseEvent(w, i, at, w.workers[i]))
  {
    hide Unended, Batch;
    var w' := LeaseEvent(w, i, at, w.workers[i]);
    var e := w'.log[|w.log|];
    forall n | 0 <= n < |w.workers| ensures Batch(w'.log, w'.workers[n]) {
      BatchGrows(w.log, e, w.workers[n]);
      if n == i { LeaseKeepsBatch(w.log, e, w.workers[i]); }
    }
    forall q | 0 <= q < |w'.log| && w'.log[q].Lease? && Unended(w'.log, q)
      ensures w'.log[q].worker < |w'.workers| && q in Leases(w'.workers[w'.log[q].worker])
    {
      if q < |w.log| { UnendedShrinks(w.log, e, q); } else { assert Leases(w'.workers[i])[|w.workers[i].leases|] == q; }
    }
  }

  lemma BatchLeases(log: seq<Entry>, worker: Worker)
    requires Batch(log, worker)
    ensures OnceEach(log, Leases(worker))
  {
  }

  lemma MarkKeepsBatches(w: World, i: nat, at: int, ok: bool)
    requires Batches(w) && i < |w.workers|
    requires w.workers[i].Publishing? && w.workers[i].leases != []
    requires w.workers[i].leases[0] < |w.log| && w.log[w.workers[i].leases[0]].event < |w.rows|
    ensures Batches(MarkEvent(w, i, at, w.workers[i], ok))
  {
    hide Unended, RetryDelay, Batch;
    var w' := MarkEvent(w, i, at, w.workers[i], ok);
    var e := w'.log[|w.log|];
    forall n | 0 <= n < |w.workers| ensures Batch(w'.log, w'.workers[n]) {
      BatchGrows(w.log, e, w.workers[n]);
      if n == i {
        BatchLeases(w.log, w.workers[i]);
        MarkKeepsBatch(w.log, e, w.workers[i].leases, w'.workers[i].failed);
      }
    }
    forall q | 0 <= q < |w'.log| && w'.log[q].Lease? && Unended(w'.log, q)
      ensures w'.log[q].worker < |w'.workers| && q in Leases(w'.workers[w'.log[q].worker])
    {
      UnendedShrinks(w.log, e, q);
    }
  }

  lemma StepKeepsBatches(w: World, i: nat, a: Action)
    requires Batches(w) && i < |w.workers|
    ensures Batches(Step(w, i, a))
  {
    hide Batches, MaySelect, RetryDelay;
    if |w.log| < |Step(w, i, a).log| {
      if a.Claim? { LeaseKeepsBatches(w, i, a.at); } else { MarkKeepsBatches(w, i, a.at, a.ok); }
    } else {
      QuietStepKeepsBatches(w, i, a);
    }
  }

  predicate Tracked(w: World, clock: int) { InOrder(w) && Kept(w, clock) && LocksTell(w) && Batches(w) }

  lemma {:induction false} RunTracks(w: World, turns: seq<(nat, Action)>, clock: int, end: int)
    requires Tracked(w, clock) && Clocked(turns, clock) && forall t <- turns :: t.0 < |w.workers|
    requires clock <= end && forall t <- turns :: t.1.at <= end
    ensures Tracked(Run(w, turns), end)
    decreases turns
  {
    hide InOrder, Kept, LocksTell, Batches, Step;
    if turns == [] {
      LaterClock(w, clock, end);
    } else {
      assert turns[0] in turns;
      StepKeepsOrder(w, turns[0].0, turns[0].1);
      StepKeepsHolders(w, turns[0].0, turns[0].1, clock);
      StepKeepsLocks(w, turns[0].0, turns[0].1);
      StepKeepsBatches(w, turns[0].0, turns[0].1);
      RunTracks(Step(w, turns[0].0, turns[0].1), turns[1..], turns[0].1.at, end);
    }
  }

  lemma LaterClock(w: World, clock: int, end: int)
    requires Kept(w, clock) && clock <= end
    ensures Kept(w, end)
  {
  }

  // ----- the mark

  /** A later lease of the same event, unexpired and unmarked. */
  predicate HeldSince(log: seq<Entry>, p: nat, q: nat, at: int)
    requires p < |log|
  {
    && p < q < |log| && log[q].Lease? && log[q].event == log[p].event
    && Unmarked(log, log[p].event, q, |log|) && at < log[q].Until()
  }

  lemma LaterLeaseIsTheLast(w: World, p: nat, q: nat, at: int)
    requires Tracked(w, at) && p < |w.log| && HeldSince(w.log, p, q, at)
    ensures LastEntry(w.log, w.log[p].event) == Some(q)
  {
    hide TableTells, PublishedIsFinal, Holds, LocksTell, Batches, LastEntry;
    var event := w.log[p].event;
    var k := LastEntry(w.log, event).value;
    assert q < k ==> Unmarked(w.log, event, q, k);
  }

  lemma HeldByAnother(w: World, i: nat, q: nat, at: int)
    requires Tracked(w, at) && i < |w.workers| && w.workers[i].Publishing? && w.workers[i].leases != []
    requires w.workers[i].leases[0] < |w.log| && HeldSince(w.log, w.workers[i].leases[0], q, at)
    ensures w.log[q].worker != i && Unended(w.log, q)
  {
    hide TableTells, PublishedIsFinal, LeasesExclude, LocksTell, LastEntry;
    forall k | 0 <= k < |w.log| && w.log[k].Mark? ensures w.log[k].lease != q { assert MarkFits(w.log, k); }
    assert Unended(w.log, q);
    assert Batch(w.log, w.workers[i]) && Leases(w.workers[i]) == w.workers[i].leases;
  }

  lemma StartIsTracked(rows: seq<EventRow>, workers: nat, clock: int)
    ensures Tracked(Start(rows, workers), clock)
  {
  }

  /** The event is locked, and not by the lease the worker is about to mark. */
  predicate FreesAnother(w: World, p: nat, at: int) {
    && p < |w.log| && w.log[p].event < |w.rows|
    && !Unlocked(w.rows[w.log[p].event], at) && LastEntry(w.log, w.log[p].event) != Some(p)
  }

  /** In any interleaving under a clock that never goes back: a mark takes another's lock off an event exactly when the
      event was leased again since the marked lease and that lease is unexpired and unmarked. It is another worker's,
      who has yet to mark it. */
  lemma MarkFreesAnotherIff(rows: seq<EventRow>, workers: nat, turns: seq<(nat, Action)>, clock: int, i: nat, at: int,
                            ok: bool)
    requires i < workers && (forall t <- turns :: t.0 < workers && t.1.at <= at) && Clocked(turns, clock) && clock <= at
    requires var worker := Run(Start(rows, workers), turns).workers[i]; worker.Publishing? && worker.leases != []
    ensures var w := Run(Start(rows, workers), turns);
            var p := w.workers[i].leases[0];
            var w' := Step(w, i, Report(at, ok));
            && p < |w.log| && w.log[p].event < |w.rows| && |w'.rows| == |w.rows|
            && w'.rows[w.log[p].event].lockedUntil.None?
            && (FreesAnother(w, p, at) <==> exists q: nat :: HeldSince(w.log, p, q, at))
            && (forall q: nat | q < |w.log| && w.log[q].Lease? && HeldSince(w.log, p, q, at) ::
                  w.log[q].worker != i && Unended(w.log, q))
  {
    hide Run, Tracked, FreesAnother, Unended, Clocked, Unmarked;
    StartIsTracked(rows, workers, clock);
    RunTracks(Start(rows, workers), turns, clock, at);
    var w := Run(Start(rows, workers), turns);
    HeldLease(w, i, at);
    var p := w.workers[i].leases[0];
    if FreesAnother(w, p, at) { LockIsHeldSince(w, p, at); }
    forall q: nat | q < |w.log| && w.log[q].Lease? && HeldSince(w.log, p, q, at)
      ensures FreesAnother(w, p, at) && w.log[q].worker != i && Unended(w.log, q)
    {
      HeldSinceIsLocked(w, p, q, at);
      HeldByAnother(w, i, q, at);
    }
  }

  lemma HeldLease(w: World, i: nat, at: int)
    requires Tracked(w, at) && i < |w.workers| && w.workers[i].Publishing? && w.workers[i].leases != []
    ensures var p := w.workers[i].leases[0]; p < |w.log| && w.log[p].Lease? && w.log[p].event < |w.rows|
  {
    hide LeasesExclude, PublishedIsFinal, LogFits, LocksTell, Batches;
    assert HoldsOpen(w.log, Leases(w.workers[i]), i);
    assert Open(w.log, Leases(w.workers[i])[0], i);
  }

  lemma LockIsHeldSince(w: World, p: nat, at: int)
    requires Tracked(w, at) && FreesAnother(w, p, at)
    ensures HeldSince(w.log, p, LastEntry(w.log, w.log[p].event).value, at)
  {
    hide LeasesExclude, PublishedIsFinal, LogFits, Batches, Holds;
  }

  lemma HeldSinceIsLocked(w: World, p: nat, q: nat, at: int)
    requires Tracked(w, at) && p < |w.log| && HeldSince(w.log, p, q, at) && w.log[p].event < |w.rows|
    ensures FreesAnother(w, p, at)
  {
    hide LeasesExclude, PublishedIsFinal, LogFits, Batches, Holds, TableTells;
    LaterLeaseIsTheLast(w, p, q, at);
  }
}
