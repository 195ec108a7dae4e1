/** When an event's lease protects its holder: as long as no mark on the event comes after the lease it ends ran out. */
module OutboxHolders {
  import opened OutboxLeases

  /** The clock starts no earlier than given and never goes back from one action to a later one. */
  predicate Clocked(turns: seq<(nat, Action)>, clock: int) {
    && (forall i | 0 <= i < |turns| :: clock <= turns[i].1.at)
    && (forall i, j | 0 <= i <= j < |turns| :: turns[i].1.at <= turns[j].1.at)
  }

  /** A mark made when the lease it ends has already run out. */
  predicate Late(log: seq<Entry>, m: nat) {
    && m < |log| && log[m].Mark? && log[m].lease < |log|
    && log[log[m].lease].Lease? && log[log[m].lease].Until() <= log[m].at
  }

  predicate LateMarkBefore(log: seq<Entry>, event: nat, j: nat) {
    exists m: nat :: m < j && Late(log, m) && log[m].event == event
  }

  predicate EndedBetween(log: seq<Entry>, i: nat, j: nat) {
    exists k | i < k < j && k < |log| :: log[k].Mark? && log[k].lease == i
  }

  /** The later lease comes only once the earlier one's holder has marked it or lost it to the clock. */
  predicate HoldersExclude(log: seq<Entry>, i: nat, j: nat)
    requires i < j < |log| && log[i].Lease? && log[j].Lease?
  {
    log[i].Until() <= log[j].at || EndedBetween(log, i, j)
  }

  /** A mark ends an earlier lease of the same event. */
  predicate MarkFits(log: seq<Entry>, k: nat) {
    k < |log| && (log[k].Mark? ==>
      log[k].lease < k && log[log[k].lease].Lease? && log[log[k].lease].event == log[k].event)
  }

  /** What every run gives its log: times in order, marks that end earlier leases, and no lease ended twice. */
  predicate LogFits(log: seq<Entry>) {
    && (forall i, j | 0 <= i <= j < |log| :: log[i].at <= log[j].at)
    && (forall i | 0 <= i < |log| && log[i].Lease? :: log[i].now <= log[i].at)
    && (forall k | 0 <= k < |log| :: MarkFits(log, k))
    && (forall k, m | 0 <= k < m < |log| && log[k].Mark? && log[m].Mark? :: log[k].lease != log[m].lease)
  }

  /** Strong induction on the later lease: the first mark after a lease is its own, or late, or it ends a lease that
      overlapped the first one, which a late mark had made possible. */
  lemma {:induction false} HolderHasFinished(log: seq<Entry>, i: nat, j: nat)
    requires LogFits(log) && LeasesExclude(log)
    requires i < j < |log| && log[i].Lease? && log[j].Lease? && log[i].event == log[j].event
    ensures HoldersExclude(log, i, j) || LateMarkBefore(log, log[i].event, j)
    decreases j
  {
    if !Unmarked(log, log[i].event, i, j) {
      var m := FirstMark(log, log[i].event, i, j);
      assert MarkFits(log, m);
      var p := log[m].lease;
      if p < i {
        EndedOnce(log, p, i, m);
        HolderHasFinished(log, p, i);
        if LateMarkBefore(log, log[i].event, i) {
          var k: nat :| k < i && Late(log, k) && log[k].event == log[i].event;
          assert k < j;
        } else {
          assert Late(log, m);
        }
      } else if i < p {
        assert Unmarked(log, log[i].event, i, p);
      }
    }
  }

  lemma EndedOnce(log: seq<Entry>, p: nat, i: nat, m: nat)
    requires LogFits(log) && p < i < m < |log| && log[m].Mark? && log[m].lease == p
    ensures !EndedBetween(log, p, i)
  {
  }

  lemma FirstMark(log: seq<Entry>, event: nat, i: nat, j: nat) returns (m: nat)
    requires i < j < |log| && !Unmarked(log, event, i, j)
    ensures i < m < j && log[m].Mark? && log[m].event == event && Unmarked(log, event, i, m)
    decreases j
  {
    var k: nat :| i < k < j && log[k].Mark? && log[k].event == event;
    if Unmarked(log, event, i, k) { m := k; } else { m := FirstMark(log, event, i, k); }
  }

  // ----- every run gives such a log

  function Leases(worker: Worker): seq<nat> {
    if worker.Idle? then [] else worker.leases
  }

  /** The worker's own lease, which nobody has marked. */
  predicate Open(log: seq<Entry>, p: nat, worker: nat) {
    && p < |log| && log[p].Lease? && log[p].worker == worker
    && forall k | 0 <= k < |log| && log[k].Mark? :: log[k].lease != p
  }

  /** A worker holds leases of its own that are still open, oldest first. */
  predicate HoldsOpen(log: seq<Entry>, leases: seq<nat>, worker: nat) {
    && (forall a, b | 0 <= a < b < |leases| :: leases[a] < leases[b])
    && (forall a | 0 <= a < |leases| :: Open(log, leases[a], worker))
  }

  predicate Holds(w: World) {
    forall n | 0 <= n < |w.workers| :: HoldsOpen(w.log, Leases(w.workers[n]), n)
  }

  predicate ByClock(w: World, clock: int) {
    && (forall i | 0 <= i < |w.log| :: w.log[i].at <= clock)
    && (forall n | 0 <= n < |w.workers| && w.workers[n].Claiming? :: w.workers[n].now <= clock)
  }

  predicate Kept(w: World, clock: int) { LogFits(w.log) && Holds(w) && ByClock(w, clock) }

  lemma {:induction false} RunKeepsHolders(w: World, turns: seq<(nat, Action)>, clock: int)
    requires Kept(w, clock) && Clocked(turns, clock) && forall t <- turns :: t.0 < |w.workers|
    ensures LogFits(Run(w, turns).log)
    decreases turns
  {
    hide Kept;
    if turns == [] {
      KeptFits(w, clock);
    } else {
      assert turns[0] in turns;
      StepKeepsHolders(w, turns[0].0, turns[0].1, clock);
      RunKeepsHolders(Step(w, turns[0].0, turns[0].1), turns[1..], turns[0].1.at);
    }
  }

  lemma KeptFits(w: World, clock: int)
    requires Kept(w, clock)
    ensures LogFits(w.log)
  {
  }

  lemma StepKeepsHolders(w: World, i: nat, a: Action, clock: int)
    requires Kept(w, clock) && i < |w.workers| && clock <= a.at
    ensures Kept(Step(w, i, a), a.at)
  {
    hide MaySelect, LogFits, Holds, RetryDelay;
    var w' := Step(w, i, a);
    if |w.log| < |w'.log| {
      if a.Claim? {
        LeaseFits(w, i, a.at, clock);
        LeaseIsHeld(w, i, a.at);
      } else {
        MarkFitsLog(w, i, a.at, a.ok, clock);
        MarkEndsHold(w, i, a.at, a.ok);
      }
    } else {
      QuietStepHolds(w, i, a);
    }
  }

  lemma QuietStepHolds(w: World, i: nat, a: Action)
    requires Holds(w) && i < |w.workers| && Step(w, i, a).log == w.log
    ensures Holds(Step(w, i, a))
  {
    hide MaySelect, Open;
    var w' := Step(w, i, a);
    forall n | 0 <= n < |w'.workers| ensures HoldsOpen(w'.log, Leases(w'.workers[n]), n) {
      assert Leases(w'.workers[n]) == Leases(w.workers[n]);
    }
  }

  lemma LeaseFits(w: World, i: nat, at: int, clock: int)
    requires LogFits(w.log) && ByClock(w, clock) && clock <= at && i < |w.workers|
    requires w.workers[i].Claiming? && w.workers[i].left != [] && w.workers[i].left[0] < |w.rows|
    ensures LogFits(LeaseEvent(w, i, at, w.workers[i]).log)
  {
    var log := LeaseEvent(w, i, at, w.workers[i]).log;
    forall k | 0 <= k < |log| ensures MarkFits(log, k) {
      if k < |w.log| { assert MarkFits(w.log, k); }
    }
  }

  lemma LeaseIsHeld(w: World, i: nat, at: int)
    requires Holds(w) && LogFits(w.log) && i < |w.workers|
    requires w.workers[i].Claiming? && w.workers[i].left != [] && w.workers[i].left[0] < |w.rows|
    ensures Holds(LeaseEvent(w, i, at, w.workers[i]))
  {
    hide HoldsOpen, LogFits;
    var w' := LeaseEvent(w, i, at, w.workers[i]);
    var e := w'.log[|w.log|];
    forall n | 0 <= n < |w'.workers| ensures HoldsOpen(w'.log, Leases(w'.workers[n]), n) {
      OpenStays(w.log, e, Leases(w.workers[n]), n);
      if n == i { NewLeaseIsOpen(w.log, e, Leases(w.workers[i]), i); }
    }
  }

  lemma OpenStays(log: seq<Entry>, e: Entry, leases: seq<nat>, worker: nat)
    requires HoldsOpen(log, leases, worker) && !(e.Mark? && e.lease in leases)
    ensures HoldsOpen(log + [e], leases, worker)
  {
    forall a | 0 <= a < |leases| ensures Open(log + [e], leases[a], worker) {
      assert Open(log, leases[a], worker);
    }
  }

  lemma NewLeaseIsOpen(log: seq<Entry>, e: Entry, leases: seq<nat>, worker: nat)
    requires HoldsOpen(log + [e], leases, worker) && HoldsOpen(log, leases, worker) && LogFits(log)
    requires e.Lease? && e.worker == worker
    ensures HoldsOpen(log + [e], leases + [|log|], worker)
  {
    forall k | 0 <= k < |log + [e]| && (log + [e])[k].Mark? ensures (log + [e])[k].lease != |log| {
      assert MarkFits(log, k);
    }
    assert Open(log + [e], |log|, worker);
    forall a | 0 <= a < |leases| ensures leases[a] < |log| && Open(log + [e], leases[a], worker) {
      assert Open(log, leases[a], worker);
    }
  }

  lemma MarkFitsLog(w: World, i: nat, at: int, ok: bool, clock: int)
    requires LogFits(w.log) && Holds(w) && ByClock(w, clock) && clock <= at && i < |w.workers|
    requires w.workers[i].Publishing? && w.workers[i].leases != []
    requires w.workers[i].leases[0] < |w.log| && w.log[w.workers[i].leases[0]].event < |w.rows|
    ensures LogFits(MarkEvent(w, i, at, w.workers[i], ok).log)
  {
    hide RetryDelay;
    var log := MarkEvent(w, i, at, w.workers[i], ok).log;
    assert HoldsOpen(w.log, Leases(w.workers[i]), i);
    assert Open(w.log, Leases(w.workers[i])[0], i);
    forall k | 0 <= k < |log| ensures MarkFits(log, k) {
      if k < |w.log| { assert MarkFits(w.log, k); }
    }
  }

  lemma MarkEndsHold(w: World, i: nat, at: int, ok: bool)
    requires Holds(w) && i < |w.workers|
    requires w.workers[i].Publishing? && w.workers[i].leases != []
    requires w.workers[i].leases[0] < |w.log| && w.log[w.workers[i].leases[0]].event < |w.rows|
    ensures Holds(MarkEvent(w, i, at, w.workers[i], ok))
  {
    hide RetryDelay, HoldsOpen;
    var w' := MarkEvent(w, i, at, w.workers[i], ok);
    var e := w'.log[|w.log|];
    var leases := w.workers[i].leases;
    assert Leases(w.workers[i]) == leases;
    FirstIsOwn(w.log, leases, i);
    forall n | 0 <= n < |w'.workers| ensures HoldsOpen(w'.log, Leases(w'.workers[n]), n) {
      if n != i { OthersDiffer(w.log, Leases(w.workers[n]), n, leases[0]); }
      OpenStays(w.log, e, Leases(w'.workers[n]), n);
    }
  }

  lemma FirstIsOwn(log: seq<Entry>, leases: seq<nat>, worker: nat)
    requires HoldsOpen(log, leases, worker) && leases != []
    ensures leases[0] < |log| && log[leases[0]].Lease? && log[leases[0]].worker == worker
    ensures leases[0] !in leases[1..] && HoldsOpen(log, leases[1..], worker)
  {
    assert Open(log, leases[0], worker);
  }

  lemma OthersDiffer(log: seq<Entry>, leases: seq<nat>, worker: nat, p: nat)
    requires HoldsOpen(log, leases, worker) && p < |log| && log[p].Lease? && log[p].worker != worker
    ensures p !in leases
  {
    forall a | 0 <= a < |leases| ensures leases[a] != p {
      assert Open(log, leases[a], worker);
    }
  }

  /** In any interleaving under a clock that never goes back: an event is leased again only after its last holder is
      done with it or has lost it to the clock, unless some earlier mark on that very event came late. */
  lemma OnlyLateMarksFreeHolders(rows: seq<EventRow>, workers: nat, turns: seq<(nat, Action)>, clock: int, i: nat,
                                 j: nat)
    requires (forall t <- turns :: t.0 < workers) && Clocked(turns, clock)
    requires var log := Run(Start(rows, workers), turns).log;
             i < j < |log| && log[i].Lease? && log[j].Lease? && log[i].event == log[j].event
    ensures var log := Run(Start(rows, workers), turns).log;
            HoldersExclude(log, i, j) || LateMarkBefore(log, log[i].event, j)
  {
    hide Run, LogFits, LeasesExclude, EndedBetween;
    var log := Run(Start(rows, workers), turns).log;
    LeasesNeverOverlap(rows, workers, turns);
    StartIsKept(rows, workers, clock);
    RunKeepsHolders(Start(rows, workers), turns, clock);
    HolderHasFinished(log, i, j);
  }

  lemma StartIsKept(rows: seq<EventRow>, workers: nat, clock: int)
    ensures Kept(Start(rows, workers), clock)
  {
  }
}
