/** Two runs on a single event in which an expectation about leases fails. */
module OutboxScenarios {
  import opened Wrappers
  import opened OutboxLeases
  import opened OutboxBackoff
  import opened OutboxHolders

  type Turns = seq<(nat, Action)>

  predicate OneEvent(w: World) { |w.rows| == 1 }

  // ----- what one worker does with the only event

  function Selected(w: World, i: nat, at: int): World
    requires i < |w.workers|
  {
    w.(workers := w.workers[i := Claiming(at, |w.log|, [0], [])])
  }

  function Taken(w: World, i: nat, at: int): World
    requires OneEvent(w) && i < |w.workers| && w.workers[i].Claiming?
  {
    World([Leased(w.rows[0], w.workers[i].now)],
          w.workers[i := Claiming(w.workers[i].now, w.workers[i].since, [], [|w.log|])],
          w.log + [Lease(0, i, at, w.workers[i].now, w.workers[i].since)])
  }

  lemma SelectsIt(w: World, i: nat, at: int)
    requires OneEvent(w) && i < |w.workers| && w.workers[i].Idle? && Eligible(w.rows[0], at)
    ensures Step(w, i, Select(at, 1, [0])) == Selected(w, i, at)
  {
    assert MaySelect(w.rows, at, 1, [0]);
  }

  lemma TakesIt(w: World, i: nat, at: int)
    requires OneEvent(w) && i < |w.workers| && w.workers[i].Claiming?
    requires w.workers[i].left == [0] && w.workers[i].leases == [] && ClaimSucceeds(w.rows[0], w.workers[i].now)
    ensures Step(w, i, Claim(at)) == Taken(w, i, at)
  {
    var worker := w.workers[i];
    assert Step(w, i, Claim(at)) == LeaseEvent(w, i, at, worker);
    assert worker.left[1..] == [] && worker.leases + [|w.log|] == [|w.log|];
    assert w.rows[0 := Leased(w.rows[0], worker.now)] == [Leased(w.rows[0], worker.now)];
  }

  /** The whole lease of a worker that finds the event eligible. */
  function Take(i: nat, at: int): Turns { [(i, Select(at, 1, [0])), (i, Claim(at)), (i, Claim(at))] }

  function AfterTake(w: World, i: nat, at: int): World
    requires OneEvent(w) && i < |w.workers|
  {
    World([Leased(w.rows[0], at)], w.workers[i := Publishing([|w.log|], 0)], w.log + [Lease(0, i, at, at, |w.log|)])
  }

  lemma TakeLeasesIt(w: World, i: nat, at: int)
    requires OneEvent(w) && i < |w.workers| && w.workers[i].Idle? && Eligible(w.rows[0], at)
    ensures Run(w, Take(i, at)) == AfterTake(w, i, at)
  {
    hide Step, Run;
    var t1: (nat, Action), t2: (nat, Action) := (i, Select(at, 1, [0])), (i, Claim(at));
    SelectsIt(w, i, at);
    var w1 := Selected(w, i, at);
    TakesIt(w1, i, at);
    var w2 := Taken(w1, i, at);
    StopsClaiming(w2, i, at);
    OneTurn(w, t1);
    OneTurn(w1, t2);
    OneTurn(w2, t2);
    RunThenRun(w, [t1], [t2] + [t2]);
    RunThenRun(w1, [t2], [t2]);
    assert Take(i, at) == [t1] + ([t2] + [t2]);
  }

  lemma StopsClaiming(w: World, i: nat, at: int)
    requires i < |w.workers| && w.workers[i].Claiming? && w.workers[i].left == []
    ensures Step(w, i, Claim(at)) == w.(workers := w.workers[i := Publishing(w.workers[i].leases, 0)])
  {
  }

  function Failed(w: World, i: nat, at: int): World
    requires OneEvent(w) && i < |w.workers| && w.workers[i].Publishing? && |w.workers[i].leases| == 1
  {
    World([MarkFailed(w.rows[0], at + 1)], w.workers[i := Publishing([], w.workers[i].failed + 1)],
          w.log + [Mark(0, at, w.workers[i].leases[0], Some(at + 1))])
  }

  lemma FailsIt(w: World, i: nat, at: int)
    requires OneEvent(w) && i < |w.workers| && w.workers[i].Publishing? && |w.workers[i].leases| == 1
             && w.workers[i].failed == 0
    requires w.workers[i].leases[0] < |w.log| && w.log[w.workers[i].leases[0]].event == 0
    ensures Run(w, [(i, Report(at, false))]) == Failed(w, i, at)
  {
    hide Run, RetryDelay, MaySelect;
    OneTurn(w, (i, Report(at, false)));
    RetryDelayDoublesToCap(1);
    var w' := MarkEvent(w, i, at, w.workers[i], false);
    assert Step(w, i, Report(at, false)) == w';
    assert w.workers[i].leases[1..] == [];
    assert w'.rows == [MarkFailed(w.rows[0], at + 1)];
  }

  // ----- the two runs

  const FRESH := [EventRow(0, false, 0, None, 0)]

  /** The second worker selected before the first one's failure, and leases the event within the second it should
      wait. */
  lemma ABackoffCanBeSkipped()
    ensures exists turns: Turns ::
              (forall t <- turns :: t.0 < 2) && SkipsBackoff(FRESH, Run(Start(FRESH, 2), turns).log, 2)
  {
    hide Run, Step;
    var select: Turns, fail: Turns, claim: Turns := [(1, Select(0, 1, [0]))], [(0, Report(0, false))], [(1, Claim(0))];
    var turns := select + (Take(0, 0) + (fail + claim));
    var w0 := Start(FRESH, 2);
    var w1 := Selected(w0, 1, 0);
    OneTurn(w0, select[0]);
    SelectsIt(w0, 1, 0);
    var w2 := AfterTake(w1, 0, 0);
    TakeLeasesIt(w1, 0, 0);
    var w3 := Failed(w2, 0, 0);
    FailsIt(w2, 0, 0);
    var w4 := Taken(w3, 1, 0);
    OneTurn(w3, claim[0]);
    TakesIt(w3, 1, 0);
    RunThenRun(w0, select, Take(0, 0) + (fail + claim));
    RunThenRun(w1, Take(0, 0), fail + claim);
    RunThenRun(w2, fail, claim);
    assert Run(w0, turns) == w4;
    assert w4.log[..2] == [Lease(0, 0, 0, 0, 0)] + [Mark(0, 0, 0, Some(1))];
    RetryAfterOne([Lease(0, 0, 0, 0, 0)], Mark(0, 0, 0, Some(1)), 0, 0);
    assert SkipsBackoff(FRESH, w4.log, 2);
  }

  /** The event is leased a second time while the first lease is live and its holder has not marked it. */
  predicate FreesALiveLease(log: seq<Entry>, i: nat, j: nat) {
    && i < j < |log| && log[i].Lease? && log[j].Lease? && log[i].event == log[j].event
    && !HoldersExclude(log, i, j)
  }

  /** The first worker reports after its lease ran out; the mark frees the second one's live lease for the third. */
  lemma ALateMarkFreesALiveLease()
    ensures exists turns: Turns ::
              && (forall t <- turns :: t.0 < 3) && Clocked(turns, 0)
              && FreesALiveLease(Run(Start(FRESH, 3), turns).log, 1, 3)
  {
    hide Run, Step, Clocked;
    var fail: Turns := [(0, Report(61, false))];
    var turns := Take(0, 0) + (Take(1, 60) + (fail + Take(2, 62)));
    var w0 := Start(FRESH, 3);
    var w1 := AfterTake(w0, 0, 0);
    TakeLeasesIt(w0, 0, 0);
    var w2 := AfterTake(w1, 1, 60);
    TakeLeasesIt(w1, 1, 60);
    var w3 := Failed(w2, 0, 61);
    FailsIt(w2, 0, 61);
    var w4 := AfterTake(w3, 2, 62);
    TakeLeasesIt(w3, 2, 62);
    RunThenRun(w0, Take(0, 0), Take(1, 60) + (fail + Take(2, 62)));
    RunThenRun(w1, Take(1, 60), fail + Take(2, 62));
    RunThenRun(w2, fail, Take(2, 62));
    assert Run(w0, turns) == w4;
    var log := w4.log;
    assert log[1] == Lease(0, 1, 60, 60, 1) && log[2] == Mark(0, 61, 0, Some(62)) && log[3] == Lease(0, 2, 62, 62, 3);
    assert !EndedBetween(log, 1, 3);
    assert FreesALiveLease(log, 1, 3);
    ClockedTakes(0, 60, 61, 62);
  }

  lemma ClockedTakes(a: int, b: int, c: int, d: int)
    requires 0 <= a <= b <= c <= d
    ensures Clocked(Take(0, a) + (Take(1, b) + ([(0, Report(c, false))] + Take(2, d))), 0)
  {
  }
}
