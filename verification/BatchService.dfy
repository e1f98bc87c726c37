// Batch jobs: how a record's readiness is aggregated, and what every committed progress row says.
module BatchService {
  import opened CloudNova

  // ----- readiness of one record -----

  /** `_aggregate_readiness` */
  function AggregateReadiness(levels: seq<Readiness>): Readiness {
    if levels == [] then Unresolved
    else if forall r :: r in levels ==> r == Ready then Ready
    else if Unresolved in levels then Unresolved
    else if ReviewRequired in levels then ReviewRequired
    else Repairable
  }

  /** From best to worst. */
  function Severity(r: Readiness): nat {
    match r
    case Ready => 0
    case Repairable => 1
    case ReviewRequired => 2
    case Unresolved => 3
  }

  /** The aggregate is the worst level present. */
  lemma AggregateIsWorst(levels: seq<Readiness>)
    requires levels != []
    ensures AggregateReadiness(levels) in levels
    ensures forall r :: r in levels ==> Severity(r) <= Severity(AggregateReadiness(levels))
  {
    assert levels[0] in levels;
    if AggregateReadiness(levels) == Repairable {
      var r :| r in levels && r != Ready;
      assert r == Repairable;
    }
  }

  // ----- rows and their outcomes -----

  /** What analyzing one record gives: the readiness of its addresses, or an exception. */
  datatype Outcome = Analyzed(levels: seq<Readiness>) | Raised

  predicate Counts(o: Outcome, r: Readiness) { o.Analyzed? && AggregateReadiness(o.levels) == r }

  function CountOf(rows: seq<Outcome>, r: Readiness): nat {
    if rows == [] then 0
    else CountOf(rows[..|rows| - 1], r) + if Counts(rows[|rows| - 1], r) then 1 else 0
  }

  function FailureCount(rows: seq<Outcome>): nat {
    if rows == [] then 0
    else FailureCount(rows[..|rows| - 1]) + if rows[|rows| - 1].Raised? then 1 else 0
  }

  /** Every record is counted exactly once. */
  lemma {:induction false} OutcomesPartition(rows: seq<Outcome>)
    ensures CountOf(rows, Ready) + CountOf(rows, Repairable) + CountOf(rows, ReviewRequired) + CountOf(rows, Unresolved)
      + FailureCount(rows) == |rows|
  {
    if rows != [] {
      OutcomesPartition(rows[..|rows| - 1]);
    }
  }

  /** No failure is counted exactly when no record raised, so a job completes only without failures. */
  lemma {:induction false} NoFailures(rows: seq<Outcome>)
    ensures FailureCount(rows) == 0 <==> Raised !in rows
  {
    if rows != [] {
      NoFailures(rows[..|rows| - 1]);
      assert rows == rows[..|rows| - 1] + [rows[|rows| - 1]];
    }
  }

  // ----- the job -----

  const MAX_FILE_BYTES := 2_000_000
  const MAX_ROWS := 5_000
  const PROGRESS_INTERVAL := 25

  datatype Status = Queued | Running | Completed | Partial | Failed

  datatype JobRow = JobRow(
    status: Status, total: nat, processed: nat,
    ready: nat, repairable: nat, reviewRequired: nat, unresolved: nat, failed: nat)

  /** The four readiness counts and the failures add up to the records processed. */
  predicate Balanced(j: JobRow) {
    j.ready + j.repairable + j.reviewRequired + j.unresolved + j.failed == j.processed
  }

  /** The row holds the counts of exactly these records. */
  predicate Tallies(j: JobRow, rows: seq<Outcome>) {
    && j.processed == |rows| && j.failed == FailureCount(rows)
    && j.ready == CountOf(rows, Ready) && j.repairable == CountOf(rows, Repairable)
    && j.reviewRequired == CountOf(rows, ReviewRequired) && j.unresolved == CountOf(rows, Unresolved)
  }

  predicate AllBalanced(log: seq<JobRow>) { forall i :: 0 <= i < |log| ==> Balanced(log[i]) }

  /** The row holds the counts of the first `processed` records. */
  predicate TalliesPrefix(j: JobRow, rows: seq<Outcome>) { j.processed <= |rows| && Tallies(j, rows[..j.processed]) }

  predicate AllTally(log: seq<JobRow>, start: nat, rows: seq<Outcome>) {
    forall i :: start <= i < |log| ==> TalliesPrefix(log[i], rows)
  }

  datatype Result = Report | TooLarge | TooManyRows

  class Job {
    /** The number of records in the stored input. */
    const recordCount: nat
    var row: JobRow
    /** The rows that were committed, oldest first. */
    var committed: seq<JobRow>

    constructor (records: nat)
      ensures recordCount == records && Valid() && committed == [row]
    {
      recordCount := records;
      row := JobRow(Queued, 0, 0, 0, 0, 0, 0, 0);
      committed := [JobRow(Queued, 0, 0, 0, 0, 0, 0, 0)];
    }

    /** What holds between calls, also when a call was interrupted between two commits: the stored
        row is the last committed one, and every committed row is balanced. */
    predicate Valid()
      reads this
    {
      && AllBalanced(committed) && row.processed <= recordCount
      && committed != [] && committed[|committed| - 1] == row
    }

    method Commit()
      requires AllBalanced(committed) && Balanced(row)
      modifies this`committed
      ensures committed == old(committed) + [row] && AllBalanced(committed)
    {
      committed := committed + [row];
    }

    /** `_write_counts` */
    method WriteCounts(counts: map<Readiness, nat>, failed: nat)
      requires counts.Keys == {Ready, Repairable, ReviewRequired, Unresolved}
      modifies this`row
      ensures row == old(row).(ready := counts[Ready], repairable := counts[Repairable],
                               reviewRequired := counts[ReviewRequired], unresolved := counts[Unresolved], failed := failed)
    {
      row := row.(ready := counts[Ready], repairable := counts[Repairable],
                  reviewRequired := counts[ReviewRequired], unresolved := counts[Unresolved], failed := failed);
    }

    /** The record loop: counters in memory, a commit every PROGRESS_INTERVAL records and at the end. */
    method ProcessRows(rows: seq<Outcome>) returns (counts: map<Readiness, nat>, failed: nat)
      requires |rows| == recordCount && Valid()
      modifies this
      ensures CountsAre(counts, failed, rows)
      ensures AllBalanced(committed) && old(committed) <= committed && AllTally(committed, |old(committed)|, rows)
      ensures row == old(row) || (row.processed == |rows| && row.total == old(row).total && row.status == old(row).status)
      ensures rows != [] ==> row.processed == |rows|
    {
      counts := map[Ready := 0, Repairable := 0, ReviewRequired := 0, Unresolved := 0];
      failed := 0;
      for i := 0 to |rows|
        invariant CountsAre(counts, failed, rows[..i])
        invariant AllBalanced(committed) && old(committed) <= committed && AllTally(committed, |old(committed)|, rows)
        invariant i == 0 ==> row == old(row)
        invariant i > 0 ==> row.processed == i && row.total == old(row).total && row.status == old(row).status
      {
        CountsNext(counts, failed, rows, i);
        match rows[i] {
          case Analyzed(levels) =>
            var status := AggregateReadiness(levels);
            counts := counts[status := counts[status] + 1];
          case Raised =>
            failed := failed + 1;
        }
        Progress(counts, failed, rows[..i + 1], i + 1 == |rows|);
      }
      assert rows[..|rows|] == rows;
    }

    /** One more record is processed; the counts are written and committed every PROGRESS_INTERVAL
        records and after the last one. */
    method Progress(counts: map<Readiness, nat>, failed: nat, done: seq<Outcome>, last: bool)
      requires CountsAre(counts, failed, done) && AllBalanced(committed)
      modifies this
      ensures AllBalanced(committed)
      ensures committed == old(committed) || (committed == old(committed) + [row] && Tallies(row, done))
      ensures row.processed == |done| && row.total == old(row).total && row.status == old(row).status
    {
      row := row.(processed := |done|);
      if |done| % PROGRESS_INTERVAL == 0 || last {
        WriteCounts(counts, failed);
        OutcomesPartition(done);
        Commit();
      }
    }

    /** The end of a run: the final status and counts. */
    method Finish(counts: map<Readiness, nat>, failed: nat, rows: seq<Outcome>)
      requires CountsAre(counts, failed, rows) && AllBalanced(committed)
      requires row.processed == |rows| && row.processed <= recordCount
      modifies this
      ensures Valid() && committed == old(committed) + [row] && Tallies(row, rows) && row.total == old(row).total
      ensures row.status == if failed == 0 then Completed else Partial
    {
      row := row.(status := if failed == 0 then Completed else Partial);
      WriteCounts(counts, failed);
      OutcomesPartition(rows);
      Commit();
    }

    /** A refused input: the job fails and keeps its counts. */
    method Reject()
      requires Valid()
      modifies this
      ensures Valid() && old(committed) <= committed && row == old(row).(status := Failed)
    {
      assert Balanced(committed[|committed| - 1]);
      row := row.(status := Failed);
      Commit();
    }

    method Start(total: nat)
      requires Valid()
      modifies this
      ensures Valid() && committed == old(committed) + [row] && row == old(row).(status := Running, total := total)
    {
      assert Balanced(committed[|committed| - 1]);
      row := row.(status := Running, total := total);
      Commit();
    }

    /** `process_batch_async`, given the size of the input and the outcome of each record. A job that
        was interrupted is processed again from the start. After the row that marks the job as running,
        every committed row holds the counts of the records processed by then, and the last one those of
        all records. */
    method Process(bytes: nat, rows: seq<Outcome>) returns (result: Result)
      requires Valid() && |rows| == recordCount
      modifies this
      ensures Valid() && old(committed) <= committed
      ensures Finished(old(row)) ==> row == old(row) && committed == old(committed)
      ensures !Finished(old(row)) ==>
        && (result == TooLarge <==> bytes > MAX_FILE_BYTES)
        && (result == TooManyRows <==> bytes <= MAX_FILE_BYTES && |rows| > MAX_ROWS)
        && (result != Report ==> row == old(row).(status := Failed))
        && (result == Report ==>
              && row.total == |rows| && Tallies(row, rows) && AllTally(committed, |old(committed)| + 1, rows)
              && row.status == if FailureCount(rows) > 0 then Partial else Completed)
    {
      if Finished(row) {
        return Report;
      }
      if bytes > MAX_FILE_BYTES {
        Reject();
        return TooLarge;
      }
      if |rows| > MAX_ROWS {
        Reject();
        return TooManyRows;
      }
      Start(|rows|);
      var counts, failed := ProcessRows(rows);
      Finish(counts, failed, rows);
      assert rows[..|rows|] == rows;
      return Report;
    }
  }

  predicate Finished(j: JobRow) { j.status.Completed? || j.status.Partial? || j.status.Failed? }

  /** The in-memory counters after these records. */
  predicate CountsAre(counts: map<Readiness, nat>, failed: nat, rows: seq<Outcome>) {
    && counts.Keys == {Ready, Repairable, ReviewRequired, Unresolved}
    && counts[Ready] == CountOf(rows, Ready) && counts[Repairable] == CountOf(rows, Repairable)
    && counts[ReviewRequired] == CountOf(rows, ReviewRequired) && counts[Unresolved] == CountOf(rows, Unresolved)
    && failed == FailureCount(rows)
  }

  lemma CountsNext(counts: map<Readiness, nat>, failed: nat, rows: seq<Outcome>, i: nat)
    requires i < |rows| && CountsAre(counts, failed, rows[..i])
    ensures rows[i].Analyzed? ==>
      var status := AggregateReadiness(rows[i].levels);
      status in counts && CountsAre(counts[status := counts[status] + 1], failed, rows[..i + 1])
    ensures rows[i].Raised? ==> CountsAre(counts, failed + 1, rows[..i + 1])
  {
    assert rows[..i + 1][..i] == rows[..i];
    var status := if rows[i].Analyzed? then AggregateReadiness(rows[i].levels) else Ready;
    assert status in {Ready, Repairable, ReviewRequired, Unresolved};
  }
}
