/** One undisturbed call of the outbox scheduler: claim a batch, publish it, mark every event. */
module OutboxScheduler {
  import opened Wrappers
  import opened OutboxLeases

  /** What the publisher answered for one event, and the clock when it did. */
  datatype Answer = Answer(at: int, ok: bool)

  datatype PublishReport = PublishReport(attempted: nat, published: nat, failed: nat)

  function Failures(answers: seq<Answer>): (n: nat)
    ensures n <= |answers|
  {
    if answers == [] then 0 else Failures(answers[..|answers| - 1]) + if answers[|answers| - 1].ok then 0 else 1
  }

  lemma FailuresGrow(answers: seq<Answer>, i: nat)
    requires i < |answers|
    ensures Failures(answers[..i + 1]) == Failures(answers[..i]) + if answers[i].ok then 0 else 1
  {
    assert answers[..i + 1][..i] == answers[..i];
  }

  /** The event after its answer: published, or put off by a delay that counts the failures of this batch so far. */
  function Answered(row: EventRow, answers: seq<Answer>, i: nat): EventRow
    requires i < |answers|
  {
    if answers[i].ok then MarkPublished(row)
    else MarkFailed(row, answers[i].at + RetryDelay(Failures(answers[..i + 1])))
  }

  class Outbox {
    var rows: seq<EventRow>

    constructor (rows: seq<EventRow>)
      ensures this.rows == rows
    {
      this.rows := rows;
    }

    /** Undisturbed, every selected event is leased, and nothing else changes. */
    method ClaimPending(limit: int, now: int, candidates: seq<nat>) returns (claimed: seq<nat>)
      requires MaySelect(rows, now, limit, candidates)
      modifies this
      ensures claimed == candidates && |rows| == |old(rows)|
      ensures forall k | 0 <= k < |rows| ::
                rows[k] == if k in candidates then Leased(old(rows)[k], now) else old(rows)[k]
    {
      claimed := [];
      for i := 0 to |candidates|
        invariant claimed == candidates[..i] && |rows| == |old(rows)|
        invariant forall k | 0 <= k < |rows| ::
                    rows[k] == if k in candidates[..i] then Leased(old(rows)[k], now) else old(rows)[k]
      {
        var event := candidates[i];
        assert event !in candidates[..i];
        if ClaimSucceeds(rows[event], now) {
          rows := rows[event := Leased(rows[event], now)];
          claimed := claimed + [event];
        }
        assert candidates[..i + 1] == candidates[..i] + [event];
      }
    }

    method Publish(event: nat)
      requires event < |rows|
      modifies this
      ensures rows == old(rows)[event := MarkPublished(old(rows)[event])]
    {
      rows := rows[event := MarkPublished(rows[event])];
    }

    method PutOff(event: nat, retryAt: int)
      requires event < |rows|
      modifies this
      ensures rows == old(rows)[event := MarkFailed(old(rows)[event], retryAt)]
    {
      rows := rows[event := MarkFailed(rows[event], retryAt)];
    }

    /**
     * Every selected event ends published or put off, unlocked either way; the k-th failure of the batch waits by the
     * k-th delay, however often that event failed before; the report counts exactly these outcomes.
     */
    method PublishPending(limit: int, now: int, candidates: seq<nat>, answers: seq<Answer>)
      returns (report: PublishReport)
      requires MaySelect(rows, now, limit, candidates) && |answers| == |candidates|
      modifies this
      ensures report == PublishReport(|candidates|, |candidates| - Failures(answers), Failures(answers))
      ensures |rows| == |old(rows)|
      ensures forall i | 0 <= i < |candidates| :: rows[candidates[i]] == Answered(old(rows)[candidates[i]], answers, i)
      ensures forall k | 0 <= k < |rows| && k !in candidates :: rows[k] == old(rows)[k]
    {
      hide RetryDelay, Failures;
      var claimed := ClaimPending(limit, now, candidates);
      report := PublishReport(|claimed|, 0, 0);
      assert answers[..0] == [];
      NoFailures();
      for i := 0 to |claimed|
        invariant report == PublishReport(|claimed|, i - Failures(answers[..i]), Failures(answers[..i]))
        invariant |rows| == |old(rows)|
        invariant forall j | 0 <= j < i :: rows[candidates[j]] == Answered(old(rows)[candidates[j]], answers, j)
        invariant forall j | i <= j < |candidates| :: rows[candidates[j]] == Leased(old(rows)[candidates[j]], now)
        invariant forall k | 0 <= k < |rows| && k !in candidates :: rows[k] == old(rows)[k]
      {
        FailuresGrow(answers, i);
        var answer := answers[i];
        if answer.ok {
          Publish(claimed[i]);
          report := report.(published := report.published + 1);
        } else {
          PutOff(claimed[i], answer.at + RetryDelay(report.failed + 1));
          report := report.(failed := report.failed + 1);
        }
      }
      assert answers[..|answers|] == answers;
    }
  }

  lemma NoFailures()
    ensures Failures([]) == 0
  {
  }
}
