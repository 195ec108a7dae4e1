/** What the outbox table says about an event after any run, whom a selection serves, and what a whole undisturbed pass
    of one worker does. */
module OutboxProgress {
  import opened Wrappers
  import opened OutboxLeases
  import opened OutboxScheduler

  // ----- what marks leave in the table

  function FailuresOf(log: seq<Entry>, event: nat): nat {
    if log == [] then 0
    else
      var e := log[|log| - 1];
      FailuresOf(log[..|log| - 1], event) + if e.Mark? && e.event == event && e.retryAt.Some? then 1 else 0
  }

  predicate PublishedIn(log: seq<Entry>, event: nat) {
    exists k | 0 <= k < |log| :: log[k].Mark? && log[k].event == event && log[k].retryAt.None?
  }

  /** Attempts count failures, and an event is published exactly by a mark that says so. */
  predicate MarksCount(rows: seq<EventRow>, w: World) {
    && |w.rows| == |rows|
    && forall k | 0 <= k < |rows| ::
         && w.rows[k].createdAt == rows[k].createdAt
         && w.rows[k].attempts == rows[k].attempts + FailuresOf(w.log, k)
         && (w.rows[k].published <==> rows[k].published || PublishedIn(w.log, k))
  }

  lemma FailuresOfGrow(log: seq<Entry>, e: Entry, event: nat)
    ensures FailuresOf(log + [e], event) ==
              FailuresOf(log, event) + if e.Mark? && e.event == event && e.retryAt.Some? then 1 else 0
    ensures PublishedIn(log + [e], event) <==>
              PublishedIn(log, event) || (e.Mark? && e.event == event && e.retryAt.None?)
  {
    assert (log + [e])[..|log|] == log && (log + [e])[|log|] == e;
    if PublishedIn(log, event) {
      var k :| 0 <= k < |log| && log[k].Mark? && log[k].event == event && log[k].retryAt.None?;
      assert (log + [e])[k] == log[k];
    }
  }

  lemma StepCounts(rows: seq<EventRow>, w: World, i: nat, a: Action)
    requires MarksCount(rows, w) && i < |w.workers|
    ensures MarksCount(rows, Step(w, i, a))
  {
    hide MaySelect, RetryDelay, FailuresOf, PublishedIn;
    var w' := Step(w, i, a);
    if |w.log| < |w'.log| {
      forall k | 0 <= k < |rows| ensures
          && w'.rows[k].createdAt == rows[k].createdAt
          && w'.rows[k].attempts == rows[k].attempts + FailuresOf(w'.log, k)
          && (w'.rows[k].published <==> rows[k].published || PublishedIn(w'.log, k))
      {
        FailuresOfGrow(w.log, w'.log[|w.log|], k);
      }
    }
  }

  lemma {:induction false} RunCounts(rows: seq<EventRow>, w: World, turns: seq<(nat, Action)>)
    requires MarksCount(rows, w) && forall t <- turns :: t.0 < |w.workers|
    ensures MarksCount(rows, Run(w, turns))
    decreases turns
  {
    hide MarksCount, Step;
    if turns != [] {
      assert turns[0] in turns;
      StepCounts(rows, w, turns[0].0, turns[0].1);
      RunCounts(rows, Step(w, turns[0].0, turns[0].1), turns[1..]);
    }
  }

  /** In any interleaving: an event's attempts are the failures reported on it, it is published exactly by a report that
      says so, and its age never changes. */
  lemma TableCountsMarks(rows: seq<EventRow>, workers: nat, turns: seq<(nat, Action)>)
    requires forall t <- turns :: t.0 < workers
    ensures MarksCount(rows, Run(Start(rows, workers), turns))
  {
    hide Run;
    assert Start(rows, workers).log == [];
    RunCounts(rows, Start(rows, workers), turns);
  }

  // ----- whom a selection serves

  /** How many events could be selected before or together with one of the given age. */
  function Rivals(rows: seq<EventRow>, now: int, age: int): nat {
    if rows == [] then 0
    else
      Rivals(rows[..|rows| - 1], now, age)
      + if Eligible(rows[|rows| - 1], now) && rows[|rows| - 1].createdAt <= age then 1 else 0
  }

  /** The row is unpublished, due and unlocked. */
  predicate Free(row: EventRow, now: int) {
    !row.published && row.nextAttemptAt <= now && (row.lockedUntil.Some? ==> row.lockedUntil.value <= now)
  }

  lemma {:induction false} PickedAreRivals(rows: seq<EventRow>, now: int, age: int, others: set<nat>)
    requires forall k <- others :: k < |rows| && Eligible(rows[k], now) && rows[k].createdAt <= age
    ensures |others| <= Rivals(rows, now, age)
    decreases |rows|
  {
    if rows == [] {
      assert others == {};
    } else {
      var last: nat := |rows| - 1;
      var rest := others - {last};
      assert forall k <- rest :: k < last && rows[..last][k] == rows[k];
      PickedAreRivals(rows[..last], now, age, rest);
      assert others == if last in others then rest + {last} else rest;
    }
  }

  lemma {:induction false} PicksAreASet(picked: seq<nat>) returns (s: set<nat>)
    requires forall i, j | 0 <= i < j < |picked| :: picked[i] != picked[j]
    ensures |s| == |picked| && forall k :: k in s <==> k in picked
  {
    if picked == [] {
      s := {};
    } else {
      var init, last := picked[..|picked| - 1], picked[|picked| - 1];
      s := PicksAreASet(init);
      assert picked == init + [last];
      s := s + {last};
    }
  }

  /** A selection serves only free events, never more than asked for, and leaves a free one out only if as many free
      ones that are no younger fill it. */
  lemma OldestAreServed(rows: seq<EventRow>, now: int, limit: int, picked: seq<nat>, k: nat)
    requires MaySelect(rows, now, limit, picked)
    ensures 0 <= limit ==> |picked| <= limit
    ensures k in picked ==> k < |rows| && Free(rows[k], now)
    ensures k < |rows| && Free(rows[k], now) && (limit < 0 || Rivals(rows, now, rows[k].createdAt) <= limit) ==>
              k in picked
  {
    if k < |rows| && Free(rows[k], now) && k !in picked {
      var s := PicksAreASet(picked);
      forall x <- s + {k} ensures x < |rows| && Eligible(rows[x], now) && rows[x].createdAt <= rows[k].createdAt {
        if x != k {
          assert x in picked;
        }
      }
      PickedAreRivals(rows, now, rows[k].createdAt, s + {k});
    }
  }

  // ----- one worker's whole pass

  /** The worker's claims, one for each event and one to find that none is left. */
  function Claims(i: nat, at: int, n: nat): (turns: seq<(nat, Action)>)
    ensures |turns| == n && forall t <- turns :: t.0 == i
  {
    seq(n, _ => (i, Claim(at)))
  }

  function Reports(i: nat, answers: seq<Answer>): (turns: seq<(nat, Action)>)
    ensures forall t <- turns :: t.0 == i
  {
    seq(|answers|, k requires 0 <= k < |answers| => (i, Report(answers[k].at, answers[k].ok)))
  }

  /** The rows once exactly the given events are leased. */
  predicate LeasedExactly(rows: seq<EventRow>, rows': seq<EventRow>, events: seq<nat>, now: int) {
    && |rows'| == |rows|
    && forall k | 0 <= k < |rows| ::
         rows'[k] == if k in events then rows[k].(lockedUntil := Some(now + 60)) else rows[k]
  }

  /** Positions of the log at which these events, in this order, were leased. */
  predicate LeasesOf(log: seq<Entry>, leases: seq<nat>, events: seq<nat>) {
    |leases| == |events| && forall j | 0 <= j < |leases| :: leases[j] < |log| && log[leases[j]].event == events[j]
  }

  lemma RunCons(w: World, t: (nat, Action), rest: seq<(nat, Action)>)
    requires t.0 < |w.workers| && forall u <- rest :: u.0 < |w.workers|
    ensures Run(w, [t] + rest) == Run(Step(w, t.0, t.1), rest)
  {
    hide Step;
    assert ([t] + rest)[1..] == rest;
  }

  lemma {:induction false} ClaimsLease(w: World, i: nat, at: int, had: seq<nat>)
    requires i < |w.workers| && w.workers[i].Claiming?
    requires var left := w.workers[i].left;
             && (forall j | 0 <= j < |left| :: left[j] < |w.rows| && ClaimSucceeds(w.rows[left[j]], w.workers[i].now))
             && (forall a, b | 0 <= a < b < |left| :: left[a] != left[b])
    requires LeasesOf(w.log, w.workers[i].leases, had)
    ensures var c := w.workers[i];
            var w' := Run(w, Claims(i, at, |c.left|));
            && w'.workers[i].Claiming? && w'.workers[i].left == [] && w'.workers == w.workers[i := w'.workers[i]]
            && LeasesOf(w'.log, w'.workers[i].leases, had + c.left)
            && LeasedExactly(w.rows, w'.rows, c.left, c.now)
    decreases |w.workers[i].left|
  {
    hide Step, LeasesOf, LeaseEvent, Claims, Run;
    var c := w.workers[i];
    if c.left == [] {
      NoClaims(w, i, at);
      assert had + c.left == had;
    } else {
      hide LeasedExactly;
      var w1 := LeaseEvent(w, i, at, c);
      OneLease(w, i, at, had);
      StillClaimable(w.rows, w1.rows, c.left, c.now);
      ClaimsLease(w1, i, at, had + [c.left[0]]);
      var w2 := Run(w1, Claims(i, at, |c.left| - 1));
      LeasesCompose(w.rows, w1.rows, w2.rows, c.left, c.now);
      assert had + [c.left[0]] + c.left[1..] == had + c.left;
      assert w1.workers[i := w2.workers[i]] == w.workers[i := w2.workers[i]];
    }
  }

  lemma NoClaims(w: World, i: nat, at: int)
    requires i < |w.workers|
    ensures Run(w, Claims(i, at, 0)) == w
  {
  }

  lemma StillClaimable(rows: seq<EventRow>, rows1: seq<EventRow>, left: seq<nat>, now: int)
    requires left != [] && LeasedExactly(rows, rows1, [left[0]], now)
    requires forall j | 0 <= j < |left| :: left[j] < |rows| && ClaimSucceeds(rows[left[j]], now)
    requires forall a, b | 0 <= a < b < |left| :: left[a] != left[b]
    ensures forall j | 0 <= j < |left[1..]| :: left[1..][j] < |rows1| && ClaimSucceeds(rows1[left[1..][j]], now)
    ensures forall a, b | 0 <= a < b < |left[1..]| :: left[1..][a] != left[1..][b]
  {
    assert forall j | 0 <= j < |left| - 1 :: left[1..][j] == left[j + 1] && left[j + 1] !in [left[0]];
  }

  lemma OneLease(w: World, i: nat, at: int, had: seq<nat>)
    requires i < |w.workers| && w.workers[i].Claiming? && w.workers[i].left != []
    requires w.workers[i].left[0] < |w.rows| && ClaimSucceeds(w.rows[w.workers[i].left[0]], w.workers[i].now)
    requires LeasesOf(w.log, w.workers[i].leases, had)
    ensures var c, w1 := w.workers[i], LeaseEvent(w, i, at, w.workers[i]);
            && Run(w, Claims(i, at, |c.left|)) == Run(w1, Claims(i, at, |c.left| - 1))
            && w1.workers == w.workers[i := Claiming(c.now, c.since, c.left[1..], c.leases + [|w.log|])]
            && LeasesOf(w1.log, w1.workers[i].leases, had + [c.left[0]])
            && LeasedExactly(w.rows, w1.rows, [c.left[0]], c.now)
  {
    hide Run, Step;
    var n := |w.workers[i].left| - 1;
    assert Claims(i, at, n + 1) == [(i, Claim(at))] + Claims(i, at, n);
    RunCons(w, (i, Claim(at)), Claims(i, at, n));
    ClaimSteps(w, i, at);
  }

  lemma ClaimSteps(w: World, i: nat, at: int)
    requires i < |w.workers| && w.workers[i].Claiming? && w.workers[i].left != []
    requires w.workers[i].left[0] < |w.rows| && ClaimSucceeds(w.rows[w.workers[i].left[0]], w.workers[i].now)
    ensures Step(w, i, Claim(at)) == LeaseEvent(w, i, at, w.workers[i])
  {
    hide LeaseEvent;
  }

  lemma LeasesCompose(rows: seq<EventRow>, rows1: seq<EventRow>, rows2: seq<EventRow>, events: seq<nat>, now: int)
    requires events != []
    requires LeasedExactly(rows, rows1, [events[0]], now) && LeasedExactly(rows1, rows2, events[1..], now)
    ensures LeasedExactly(rows, rows2, events, now)
  {
    assert events == [events[0]] + events[1..];
  }

  /** The event after its report, when `failed` events of the batch have failed before the first answer. */
  predicate ReportedOn(row: EventRow, row': EventRow, answers: seq<Answer>, j: nat, failed: nat)
    requires j < |answers|
  {
    row' == if answers[j].ok then row.(published := true, lockedUntil := None)
            else row.(attempts := row.attempts + 1, lockedUntil := None,
                      nextAttemptAt := answers[j].at + RetryDelay(failed + Failures(answers[..j + 1])))
  }

  lemma {:induction false} FailuresFromTheFront(answers: seq<Answer>)
    requires answers != []
    ensures Failures(answers) == (if answers[0].ok then 0 else 1) + Failures(answers[1..])
    decreases |answers|
  {
    var init := answers[..|answers| - 1];
    if init == [] {
      assert answers[1..] == [];
    } else {
      FailuresFromTheFront(init);
      assert answers[1..][..|answers[1..]| - 1] == init[1..];
    }
  }

  lemma ReportedShifts(row: EventRow, row': EventRow, answers: seq<Answer>, j: nat, failed: nat)
    requires 1 <= j < |answers|
    requires ReportedOn(row, row', answers[1..], j - 1, failed + if answers[0].ok then 0 else 1)
    ensures ReportedOn(row, row', answers, j, failed)
  {
    hide RetryDelay, Failures;
    FailuresFromTheFront(answers[..j + 1]);
    assert answers[..j + 1][1..] == answers[1..][..j];
  }

  lemma {:induction false} ReportsMark(w: World, i: nat, answers: seq<Answer>, events: seq<nat>)
    requires i < |w.workers| && w.workers[i].Publishing? && |answers| == |events|
    requires LeasesOf(w.log, w.workers[i].leases, events)
    requires forall a | 0 <= a < |events| :: events[a] < |w.rows|
    requires forall a, b | 0 <= a < b < |events| :: events[a] != events[b]
    ensures var w' := Run(w, Reports(i, answers));
            && |w'.rows| == |w.rows|
            && w'.workers[i].Publishing? && w'.workers[i].leases == [] && w'.workers == w.workers[i := w'.workers[i]]
            && (forall k | 0 <= k < |w.rows| && k !in events :: w'.rows[k] == w.rows[k])
            && (forall j | 0 <= j < |events| ::
                  ReportedOn(w.rows[events[j]], w'.rows[events[j]], answers, j, w.workers[i].failed))
    decreases |answers|
  {
    hide Run, Step, MarkEvent, Reports, ReportedOn;
    if answers == [] {
      NoReports(w, i);
      LeasesOfLength(w.log, w.workers[i].leases, events);
    } else {
      hide LeasesOf;
      var p := w.workers[i];
      var w1 := FirstMarked(w, i, answers, events);
      assert forall a | 0 <= a < |events| - 1 :: events[1..][a] == events[a + 1];
      ReportsMark(w1, i, answers[1..], events[1..]);
      var w' := Run(w1, Reports(i, answers[1..]));
      assert w1.workers[i := w'.workers[i]] == w.workers[i := w'.workers[i]];
      assert events[0] !in events[1..];
      forall k | 0 <= k < |w.rows| && k !in events ensures w'.rows[k] == w.rows[k] { assert k !in events[1..]; }
      forall j | 0 <= j < |events|
        ensures ReportedOn(w.rows[events[j]], w'.rows[events[j]], answers, j, p.failed)
      {
        if 0 < j {
          assert events[1..][j - 1] == events[j];
          ReportedShifts(w.rows[events[j]], w'.rows[events[j]], answers, j, p.failed);
        }
      }
    }
  }

  lemma NoReports(w: World, i: nat)
    requires i < |w.workers|
    ensures Run(w, Reports(i, [])) == w
  {
  }

  lemma LeasesOfLength(log: seq<Entry>, leases: seq<nat>, events: seq<nat>)
    requires LeasesOf(log, leases, events)
    ensures |leases| == |events|
  {
  }

  /** The world after the first report of the rest. */
  lemma FirstMarked(w: World, i: nat, answers: seq<Answer>, events: seq<nat>) returns (w1: World)
    requires i < |w.workers| && w.workers[i].Publishing? && |answers| == |events| && answers != []
    requires LeasesOf(w.log, w.workers[i].leases, events) && events[0] < |w.rows|
    ensures var p := w.workers[i];
            && |w1.workers| == |w.workers|
            && Run(w, Reports(i, answers)) == Run(w1, Reports(i, answers[1..]))
            && w1.workers == w.workers[i := Publishing(p.leases[1..], p.failed + if answers[0].ok then 0 else 1)]
            && LeasesOf(w1.log, p.leases[1..], events[1..])
            && |w1.rows| == |w.rows| && (forall k | 0 <= k < |w.rows| && k != events[0] :: w1.rows[k] == w.rows[k])
            && ReportedOn(w.rows[events[0]], w1.rows[events[0]], answers, 0, p.failed)
  {
    hide Run, Step, RetryDelay, ReportedOn;
    var first: (nat, Action) := (i, Report(answers[0].at, answers[0].ok));
    assert Reports(i, answers) == [first] + Reports(i, answers[1..]);
    RunCons(w, first, Reports(i, answers[1..]));
    w1 := MarkEvent(w, i, answers[0].at, w.workers[i], answers[0].ok);
    MarkSteps(w, i, answers[0].at, answers[0].ok);
    FirstReport(w, i, answers, events[0]);
  }

  lemma MarkSteps(w: World, i: nat, at: int, ok: bool)
    requires i < |w.workers| && w.workers[i].Publishing? && w.workers[i].leases != []
    requires w.workers[i].leases[0] < |w.log| && w.log[w.workers[i].leases[0]].event < |w.rows|
    ensures Step(w, i, Report(at, ok)) == MarkEvent(w, i, at, w.workers[i], ok)
  {
    hide MarkEvent;
  }

  lemma FirstReport(w: World, i: nat, answers: seq<Answer>, event: nat)
    requires i < |w.workers| && w.workers[i].Publishing? && w.workers[i].leases != [] && answers != []
    requires w.workers[i].leases[0] < |w.log| && w.log[w.workers[i].leases[0]].event == event < |w.rows|
    ensures var w1 := MarkEvent(w, i, answers[0].at, w.workers[i], answers[0].ok);
            ReportedOn(w.rows[event], w1.rows[event], answers, 0, w.workers[i].failed)
  {
    hide RetryDelay;
    assert answers[..1] == [answers[0]] && [answers[0]][..0] == [];
  }

  /** Select, claim everything selected, report on everything claimed, and be idle again. */
  function Pass(i: nat, at: int, limit: int, picked: seq<nat>, answers: seq<Answer>): (turns: seq<(nat, Action)>)
    ensures forall t <- turns :: t.0 == i
  {
    [(i, Select(at, limit, picked))]
    + (Claims(i, at, |picked|) + ([(i, Claim(at))] + (Reports(i, answers) + [(i, Report(at, true))])))
  }

  /** A whole undisturbed pass of one worker among many marks every selected event as its answer says, unlocks it,
      touches no other, and leaves the worker idle: the statement-by-statement workers do what the scheduler's call
      does. */
  lemma UndisturbedPassMarksSelected(w: World, i: nat, at: int, limit: int, picked: seq<nat>, answers: seq<Answer>)
    requires i < |w.workers| && w.workers[i].Idle? && MaySelect(w.rows, at, limit, picked) && |answers| == |picked|
    ensures var w' := Run(w, Pass(i, at, limit, picked, answers));
            && |w'.rows| == |w.rows| && w'.workers == w.workers
            && (forall k | 0 <= k < |w.rows| && k !in picked :: w'.rows[k] == w.rows[k])
            && (forall j | 0 <= j < |picked| :: w'.rows[picked[j]] == Answered(w.rows[picked[j]], answers, j))
  {
    hide Run, Step, MaySelect, RetryDelay, Failures, ReportedOn, LeasesOf;
    SelectedAreClaimable(w.rows, at, limit, picked);
    var w1 := w.(workers := w.workers[i := Claiming(at, |w.log|, picked, [])]);
    var w2 := Run(w1, Claims(i, at, |picked|));
    NothingLeased(w.log);
    ClaimsLease(w1, i, at, []);
    assert [] + picked == picked;
    var w3 := w2.(workers := w2.workers[i := Publishing(w2.workers[i].leases, 0)]);
    ReportsMark(w3, i, answers, picked);
    var w4 := Run(w3, Reports(i, answers));
    var w' := w4.(workers := w4.workers[i := Worker.Idle]);
    assert Step(w, i, Select(at, limit, picked)) == w1 by { SelectSteps(w, i, at, limit, picked); }
    assert Step(w2, i, Claim(at)) == w3 by { LastClaimSteps(w2, i, at); }
    assert Step(w4, i, Report(at, true)) == w' by { LastReportSteps(w4, i, at); }
    PassRuns(w, w1, w2, w3, w4, w', i, at, limit, picked, answers);
    forall j | 0 <= j < |picked| ensures w'.rows[picked[j]] == Answered(w.rows[picked[j]], answers, j) {
      AnsweredIsReported(w.rows[picked[j]], w3.rows[picked[j]], w'.rows[picked[j]], answers, j, at);
    }
  }

  lemma SelectedAreClaimable(rows: seq<EventRow>, now: int, limit: int, picked: seq<nat>)
    requires MaySelect(rows, now, limit, picked)
    ensures forall j | 0 <= j < |picked| :: picked[j] < |rows| && ClaimSucceeds(rows[picked[j]], now)
    ensures forall a, b | 0 <= a < b < |picked| :: picked[a] != picked[b]
  {
  }

  lemma NothingLeased(log: seq<Entry>)
    ensures LeasesOf(log, [], [])
  {
  }

  lemma SelectSteps(w: World, i: nat, at: int, limit: int, picked: seq<nat>)
    requires i < |w.workers| && w.workers[i].Idle? && MaySelect(w.rows, at, limit, picked)
    ensures Step(w, i, Select(at, limit, picked)) == w.(workers := w.workers[i := Claiming(at, |w.log|, picked, [])])
  {
    hide MaySelect;
  }

  lemma LastClaimSteps(w: World, i: nat, at: int)
    requires i < |w.workers| && w.workers[i].Claiming? && w.workers[i].left == []
    ensures Step(w, i, Claim(at)) == w.(workers := w.workers[i := Publishing(w.workers[i].leases, 0)])
  {
  }

  lemma LastReportSteps(w: World, i: nat, at: int)
    requires i < |w.workers| && w.workers[i].Publishing? && w.workers[i].leases == []
    ensures Step(w, i, Report(at, true)) == w.(workers := w.workers[i := Worker.Idle])
  {
  }

  lemma AnsweredIsReported(row: EventRow, leased: EventRow, row': EventRow, answers: seq<Answer>, j: nat, at: int)
    requires j < |answers| && ReportedOn(leased, row', answers, j, 0)
    requires leased == row.(lockedUntil := Some(at + 60))
    ensures row' == Answered(row, answers, j)
  {
    hide RetryDelay, Failures;
  }

  lemma PassRuns(w: World, w1: World, w2: World, w3: World, w4: World, w': World, i: nat, at: int, limit: int,
                 picked: seq<nat>, answers: seq<Answer>)
    requires i < |w.workers| == |w1.workers| == |w2.workers| == |w3.workers| == |w4.workers|
    requires Step(w, i, Select(at, limit, picked)) == w1 && Run(w1, Claims(i, at, |picked|)) == w2
    requires Step(w2, i, Claim(at)) == w3 && Run(w3, Reports(i, answers)) == w4 && Step(w4, i, Report(at, true)) == w'
    ensures Run(w, Pass(i, at, limit, picked, answers)) == w'
  {
    hide Run, Step, Claims, Reports;
    var select, claim, report: (nat, Action) := (i, Select(at, limit, picked)), (i, Claim(at)), (i, Report(at, true));
    OneTurn(w, select);
    OneTurn(w2, claim);
    OneTurn(w4, report);
    var last := Reports(i, answers) + [report];
    RunThenRun(w, [select], Claims(i, at, |picked|) + ([claim] + last));
    RunThenRun(w1, Claims(i, at, |picked|), [claim] + last);
    RunThenRun(w2, [claim], last);
    RunThenRun(w3, Reports(i, answers), [report]);
  }
}
