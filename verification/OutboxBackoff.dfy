/** When a lease is taken before the event's backoff has run out. */
module OutboxBackoff {
  import opened Wrappers
  import opened OutboxLeases

  /** The next attempt time the log sets for an event, starting from the one it had. */
  function RetryAt(log: seq<Entry>, event: nat, first: int): int {
    if log == [] then first
    else
      var e := log[|log| - 1];
      if e.Mark? && e.event == event && e.retryAt.Some? then e.retryAt.value
      else RetryAt(log[..|log| - 1], event, first)
  }

  lemma {:induction false} RetrySplits(log: seq<Entry>, k: nat, event: nat, first: int)
    requires k <= |log|
    ensures RetryAt(log, event, first) == RetryAt(log[k..], event, RetryAt(log[..k], event, first))
    decreases |log|
  {
    if k == |log| {
      assert log[..k] == log;
    } else {
      RetrySplits(log[..|log| - 1], k, event, first);
      assert log[..|log| - 1][..k] == log[..k];
      assert log[k..][..|log[k..]| - 1] == log[..|log| - 1][k..];
    }
  }

  /** Either the log sets the time, or it leaves it as it was. */
  lemma {:induction false} RetryIsSetOrKept(log: seq<Entry>, event: nat, x: int, y: int)
    ensures RetryAt(log, event, x) == RetryAt(log, event, y)
            || (RetryAt(log, event, x) == x && RetryAt(log, event, y) == y)
    decreases |log|
  {
    if log != [] { RetryIsSetOrKept(log[..|log| - 1], event, x, y); }
  }

  lemma RetryAfterOne(log: seq<Entry>, e: Entry, event: nat, first: int)
    ensures RetryAt(log + [e], event, first)
         == if e.Mark? && e.event == event && e.retryAt.Some? then e.retryAt.value else RetryAt(log, event, first)
  {
    assert (log + [e])[..|log|] == log;
  }

  /** At the end of `log[..since]` the event was due by the clock the selection read. */
  predicate WasDue(rows: seq<EventRow>, log: seq<Entry>, event: nat, since: nat, now: int) {
    event < |rows| && since <= |log| && RetryAt(log[..since], event, rows[event].nextAttemptAt) <= now
  }

  /** The table carries the logged times, and whatever is or was being claimed was due when it was selected. */
  predicate Tracks(rows: seq<EventRow>, w: World) {
    && |w.rows| == |rows|
    && (forall k | 0 <= k < |rows| :: w.rows[k].nextAttemptAt == RetryAt(w.log, k, rows[k].nextAttemptAt))
    && (forall i, k | 0 <= i < |w.workers| && w.workers[i].Claiming? && k in w.workers[i].left ::
          WasDue(rows, w.log, k, w.workers[i].since, w.workers[i].now))
    && (forall j | 0 <= j < |w.log| && w.log[j].Lease? ::
          w.log[j].since <= j && WasDue(rows, w.log, w.log[j].event, w.log[j].since, w.log[j].now))
  }

  lemma WasDueStays(rows: seq<EventRow>, log: seq<Entry>, e: Entry, event: nat, since: nat, now: int)
    requires WasDue(rows, log, event, since, now)
    ensures WasDue(rows, log + [e], event, since, now)
  {
    assert (log + [e])[..since] == log[..since];
  }

  lemma StepTracks(rows: seq<EventRow>, w: World, i: nat, a: Action)
    requires Tracks(rows, w) && i < |w.workers|
    ensures Tracks(rows, Step(w, i, a))
  {
    hide WasDue, RetryAt, RetryDelay;
    var w' := Step(w, i, a);
    if |w.log| < |w'.log| {
      LogTracks(rows, w, i, a);
    } else if a.Select? {
      assert w.log[..|w.log|] == w.log;
      forall k | w.workers[i].Idle? && w'.workers[i].Claiming? && k in w'.workers[i].left
        ensures WasDue(rows, w.log, k, |w.log|, a.at)
      {
        SelectedIsDue(rows, w, a.at, a.limit, a.picked, k);
      }
    }
  }

  lemma SelectedIsDue(rows: seq<EventRow>, w: World, at: int, limit: int, picked: seq<nat>, event: nat)
    requires Tracks(rows, w) && MaySelect(w.rows, at, limit, picked) && event in picked
    ensures WasDue(rows, w.log, event, |w.log|, at)
  {
    assert w.log[..|w.log|] == w.log;
  }

  lemma LogTracks(rows: seq<EventRow>, w: World, i: nat, a: Action)
    requires Tracks(rows, w) && i < |w.workers| && |w.log| < |Step(w, i, a).log|
    ensures Tracks(rows, Step(w, i, a))
  {
    hide WasDue, RetryAt, RetryDelay;
    var w' := Step(w, i, a);
    var e := w'.log[|w.log|];
    assert w'.log == w.log + [e];
    forall k | 0 <= k < |rows|
      ensures w'.rows[k].nextAttemptAt == RetryAt(w'.log, k, rows[k].nextAttemptAt)
    {
      RetryAfterOne(w.log, e, k, rows[k].nextAttemptAt);
    }
    forall n, k | 0 <= n < |w'.workers| && w'.workers[n].Claiming? && k in w'.workers[n].left
      ensures WasDue(rows, w'.log, k, w'.workers[n].since, w'.workers[n].now)
    {
      assert w.workers[n].Claiming? && k in w.workers[n].left;
      WasDueStays(rows, w.log, e, k, w'.workers[n].since, w'.workers[n].now);
    }
    forall j | 0 <= j < |w'.log| && w'.log[j].Lease?
      ensures w'.log[j].since <= j && WasDue(rows, w'.log, w'.log[j].event, w'.log[j].since, w'.log[j].now)
    {
      if j == |w.log| {
        assert e.event in w.workers[i].left;
        WasDueWithin(rows, w.log, e.event, e.since, e.now);
      }
      WasDueStays(rows, w.log, e, w'.log[j].event, w'.log[j].since, w'.log[j].now);
    }
  }

  lemma WasDueWithin(rows: seq<EventRow>, log: seq<Entry>, event: nat, since: nat, now: int)
    requires WasDue(rows, log, event, since, now)
    ensures since <= |log|
  {
  }

  lemma {:induction false} RunTracks(rows: seq<EventRow>, w: World, turns: seq<(nat, Action)>)
    requires Tracks(rows, w) && forall t <- turns :: t.0 < |w.workers|
    ensures Tracks(rows, Run(w, turns))
    decreases turns
  {
    hide Tracks;
    if turns != [] {
      assert turns[0] in turns;
      StepTracks(rows, w, turns[0].0, turns[0].1);
      RunTracks(rows, Step(w, turns[0].0, turns[0].1), turns[1..]);
    }
  }

  /**
   * In any interleaving, a lease taken at or after its selection's clock comes before the backoff then in force
   * exactly when a failure recorded since that selection set a later attempt: a fresh selection never skips one.
   */
  lemma LeaseSkipsBackoffIff(rows: seq<EventRow>, workers: nat, turns: seq<(nat, Action)>, j: nat, clock: int)
    requires forall t <- turns :: t.0 < workers
    requires var log := Run(Start(rows, workers), turns).log; j < |log| && log[j].Lease? && log[j].now <= clock
    ensures var log := Run(Start(rows, workers), turns).log;
            && log[j].event < |rows| && log[j].since <= j
            && (clock < RetryAt(log[..j], log[j].event, rows[log[j].event].nextAttemptAt)
                <==> clock < RetryAt(log[log[j].since..j], log[j].event, clock))
  {
    hide Run, RetryAt;
    assert Tracks(rows, Start(rows, workers)) by { StartTracks(rows, workers); }
    RunTracks(rows, Start(rows, workers), turns);
    var log := Run(Start(rows, workers), turns).log;
    var first := rows[log[j].event].nextAttemptAt;
    var since := log[j].since;
    RetrySplits(log[..j], since, log[j].event, first);
    assert log[..j][..since] == log[..since] && log[..j][since..] == log[since..j];
    RetryIsSetOrKept(log[since..j], log[j].event, RetryAt(log[..since], log[j].event, first), clock);
  }

  lemma StartTracks(rows: seq<EventRow>, workers: nat)
    ensures Tracks(rows, Start(rows, workers))
  {
  }

  /** The j-th entry leases an event although, by its clock, the event's backoff has not run out. */
  predicate SkipsBackoff(rows: seq<EventRow>, log: seq<Entry>, j: nat) {
    && j < |log| && log[j].Lease? && log[j].event < |rows|
    && log[j].at < RetryAt(log[..j], log[j].event, rows[log[j].event].nextAttemptAt)
  }
}
