// A reconciliation run: greedy assignment of candidates to source records, one-to-one claims, and
// the run's counters.
module MatchRuns {
  import opened Strings
  import opened Sorting
  import opened Matcher
  import opened Narrowing

  /** A candidate with its decision. */
  datatype Candidate = Candidate(record: Record, decision: Decision)

  /** A persisted result row. */
  datatype Row = Row(source: Record, candidate: Record, decision: Decision, class_: Class)

  /** What may go wrong for one source: evaluating it raises, or building its row and adding it to the
      session raises after the source has been counted. Nothing is written before the run ends. */
  datatype Fault = NoFault | EvaluationRaises | PersistRaises

  datatype Counts = Counts(
    matched: nat, possibleMatch: nat, reviewRequired: nat, unmatched: nat, duplicateCandidate: nat, failed: nat)

  datatype Run = Run(counts: Counts, claimed: map<string, string>, rows: seq<Row>)

  const EMPTY_RUN := Run(Counts(0, 0, 0, 0, 0, 0), map[], [])

  // ----- ranking the candidates of one source -----

  function DecisionFn(e: Engine, p: Policy, src: Record): Record -> Candidate {
    (r: Record) => Candidate(r, Evaluate(e, p, src, r))
  }

  function Decisions(decide: Record -> Candidate, cands: seq<Record>): (r: seq<Candidate>)
    ensures |r| == |cands|
  {
    if cands == [] then []
    else Decisions(decide, cands[..|cands| - 1]) + [decide(cands[|cands| - 1])]
  }

  /** Strongest first. */
  function ByScore(): Candidate -> int { (d: Candidate) => -d.decision.score }

  function Ranked(e: Engine, p: Policy, src: Record, cands: seq<Record>): seq<Candidate> {
    StableSort(Decisions(DecisionFn(e, p, src), cands), ByScore())
  }

  function IsStrong(): Candidate -> bool { (d: Candidate) => d.decision.class_ == Matched }

  function Strong(ranked: seq<Candidate>): seq<Candidate> { Filter(IsStrong(), ranked) }

  // ----- one source -----

  function Claimable(claimed: map<string, string>, candidate: string, source: string): bool {
    candidate in claimed ==> claimed[candidate] == source
  }

  /** The class recorded for a source whose best candidate is not unmatched. */
  function Outcome(ranked: seq<Candidate>, claimed: map<string, string>, src: Record): Class
    requires ranked != []
  {
    if |Strong(ranked)| > 1 then DuplicateCandidate
    else if !Claimable(claimed, ranked[0].record.recordId, src.recordId) then ReviewRequired
    else ranked[0].decision.class_
  }

  function Counted(c: Counts, class_: Class): Counts {
    match class_
    case Matched => c.(matched := c.matched + 1)
    case PossibleMatch => c.(possibleMatch := c.possibleMatch + 1)
    case DuplicateCandidate => c.(duplicateCandidate := c.duplicateCandidate + 1)
    case Unmatched => c.(unmatched := c.unmatched + 1)
    case ReviewRequired => c.(reviewRequired := c.reviewRequired + 1)
  }

  predicate Claims(class_: Class) { class_.Matched? || class_.PossibleMatch? }

  function Failed(c: Counts): Counts { c.(failed := c.failed + 1) }

  /** The run after a source whose best candidate is `best`. */
  function Assigned(run: Run, src: Record, best: Candidate, class_: Class, fault: Fault): Run {
    var counts := Counted(run.counts, class_);
    var claimed := if Claims(class_) then run.claimed[best.record.recordId := src.recordId] else run.claimed;
    if fault.PersistRaises? then Run(Failed(counts), claimed, run.rows)
    else Run(counts, claimed, run.rows + [Row(src, best.record, best.decision, class_)])
  }

  function AfterSource(e: Engine, p: Policy, candidates: seq<Record>, run: Run, src: Record, fault: Fault): Run {
    if fault.EvaluationRaises? then run.(counts := Failed(run.counts))
    else
      var ranked := Ranked(e, p, src, Narrowed(e, p, src, candidates));
      if ranked == [] || ranked[0].decision.class_.Unmatched? then run.(counts := Counted(run.counts, Unmatched))
      else Assigned(run, src, ranked[0], Outcome(ranked, run.claimed, src), fault)
  }

  type SourceStep = (Run, Record, Fault) -> Run

  function StepOf(e: Engine, p: Policy, candidates: seq<Record>): SourceStep {
    (run: Run, src: Record, fault: Fault) => AfterSource(e, p, candidates, run, src, fault)
  }

  function Fold(step: SourceStep, sources: seq<Record>, faults: nat -> Fault): Run {
    if sources == [] then EMPTY_RUN
    else
      var n := |sources| - 1;
      step(Fold(step, sources[..n], faults), sources[n], faults(n))
  }

  function RunOf(e: Engine, p: Policy, candidates: seq<Record>, sources: seq<Record>, faults: nat -> Fault): Run {
    Fold(StepOf(e, p, candidates), sources, faults)
  }

  /** What holds initially and is kept by every source holds of every run. */
  lemma {:induction false} FoldKeeps(inv: Run -> bool, step: SourceStep, sources: seq<Record>, faults: nat -> Fault)
    requires inv(EMPTY_RUN) && forall run, src, fault :: inv(run) ==> inv(step(run, src, fault))
    ensures inv(Fold(step, sources, faults))
  {
    if sources != [] {
      FoldKeeps(inv, step, sources[..|sources| - 1], faults);
    }
  }

  // ----- the run -----

  datatype Status = Queued | Running | Completed | Partial

  class MatchRun {
    var status: Status
    var total: nat
    var run: Run

    constructor ()
      ensures status == Queued && run == EMPTY_RUN
    {
      status, total, run := Queued, 0, EMPTY_RUN;
    }

    /** `execute_reconciliation` */
    method Execute(e: Engine, p: Policy, sources: seq<Record>, candidates: seq<Record>, faults: nat -> Fault)
      modifies this
      ensures run == RunOf(e, p, candidates, sources, faults) && total == |sources|
      ensures status == if run.counts.failed == 0 then Completed else Partial
    {
      status := Running;
      run := EMPTY_RUN;
      for i := 0 to |sources|
        invariant run == Fold(StepOf(e, p, candidates), sources[..i], faults)
      {
        assert sources[..i + 1][..i] == sources[..i];
        ProcessSource(e, p, candidates, sources[i], faults(i));
      }
      assert sources[..|sources|] == sources;
      total := |sources|;
      status := if run.counts.failed == 0 then Completed else Partial;
    }

    /** The body of the source loop. */
    method ProcessSource(e: Engine, p: Policy, candidates: seq<Record>, src: Record, fault: Fault)
      modifies this`run
      ensures run == AfterSource(e, p, candidates, old(run), src, fault)
    {
      if fault.EvaluationRaises? {
        run := run.(counts := Failed(run.counts));
        return;
      }
      var narrowed := FilterCandidates(e, p, src, candidates);
      if narrowed == [] {
        run := run.(counts := Counted(run.counts, Unmatched));
        return;
      }
      var decisions := EvaluateAll(e, p, src, narrowed);
      RankedSome(e, p, src, narrowed);
      decisions := StableSort(decisions, ByScore());
      var best := decisions[0];
      if best.decision.class_ == Unmatched {
        run := run.(counts := Counted(run.counts, Unmatched));
        return;
      }
      var strong := Strong(decisions);
      var class_ := best.decision.class_;
      if |strong| > 1 {
        class_ := DuplicateCandidate;
      } else if best.record.recordId in run.claimed && run.claimed[best.record.recordId] != src.recordId {
        class_ := ReviewRequired;
      }
      run := run.(counts := Counted(run.counts, class_));
      if class_ == Matched || class_ == PossibleMatch {
        run := run.(claimed := run.claimed[best.record.recordId := src.recordId]);
      }
      if fault.PersistRaises? {
        run := run.(counts := Failed(run.counts));
        return;
      }
      run := run.(rows := run.rows + [Row(src, best.record, best.decision, class_)]);
    }
  }

  method EvaluateAll(e: Engine, p: Policy, src: Record, cands: seq<Record>) returns (decisions: seq<Candidate>)
    ensures decisions == Decisions(DecisionFn(e, p, src), cands)
  {
    decisions := [];
    for i := 0 to |cands|
      invariant decisions == Decisions(DecisionFn(e, p, src), cands[..i])
    {
      assert cands[..i + 1][..i] == cands[..i];
      var d := EvaluatePair(e, p, src, cands[i]);
      decisions := decisions + [Candidate(cands[i], d)];
    }
    assert cands[..|cands|] == cands;
  }

  // ----- what ranking guarantees -----

  lemma {:induction false} DecisionsAre(decide: Record -> Candidate, cands: seq<Record>, d: Candidate)
    requires forall r :: decide(r).record == r
    ensures d in Decisions(decide, cands) <==> d.record in cands && d == decide(d.record)
  {
    if cands != [] {
      var front, last := cands[..|cands| - 1], cands[|cands| - 1];
      DecisionsAre(decide, front, d);
      assert cands == front + [last];
    }
  }

  lemma RankedAre(e: Engine, p: Policy, src: Record, cands: seq<Record>, d: Candidate)
    ensures d in Ranked(e, p, src, cands) <==> d.record in cands && d.decision == Evaluate(e, p, src, d.record)
  {
    SortMembers(Decisions(DecisionFn(e, p, src), cands), ByScore());
    DecisionsAre(DecisionFn(e, p, src), cands, d);
  }

  lemma RankedSome(e: Engine, p: Policy, src: Record, cands: seq<Record>)
    ensures Ranked(e, p, src, cands) == [] <==> cands == []
  {
    if cands != [] {
      RankedAre(e, p, src, cands, Candidate(cands[0], Evaluate(e, p, src, cands[0])));
    }
  }

  lemma BestIsFirst(e: Engine, p: Policy, src: Record, cands: seq<Record>, c: Record)
    requires c in cands
    ensures Ranked(e, p, src, cands) != []
    ensures Evaluate(e, p, src, c).score <= Ranked(e, p, src, cands)[0].decision.score
  {
    var d, ranked := Candidate(c, Evaluate(e, p, src, c)), Ranked(e, p, src, cands);
    RankedAre(e, p, src, cands, d);
    SortIsSorted(Decisions(DecisionFn(e, p, src), cands), ByScore());
    var i :| 0 <= i < |ranked| && ranked[i] == d;
    if i > 0 {
      assert ByScore()(ranked[0]) <= ByScore()(ranked[i]);
    }
  }

  lemma OnlyStrong(ranked: seq<Candidate>, x: Candidate, y: Candidate)
    requires |Strong(ranked)| <= 1 && x in ranked && y in ranked
    requires x.decision.class_ == Matched && y.decision.class_ == Matched
    ensures x == y
  {
    FilterMembers(IsStrong(), ranked);
    assert x in Strong(ranked) && y in Strong(ranked);
  }

  // ----- every row, over every run -----

  /** A MATCHED row's candidate is the only MATCHED one among the source's narrowed candidates, has
      the top score, and no conflict. */
  ghost predicate Justified(e: Engine, p: Policy, candidates: seq<Record>, row: Row) {
    row.class_ == Matched ==>
      var narrowed := Narrowed(e, p, row.source, candidates);
      && row.candidate in narrowed && row.decision == Evaluate(e, p, row.source, row.candidate)
      && row.decision.class_ == Matched && row.decision.conflicts == []
      && forall c :: c in narrowed ==>
           && Evaluate(e, p, row.source, c).score <= row.decision.score
           && (Evaluate(e, p, row.source, c).class_ == Matched ==> c == row.candidate)
  }

  lemma JustifiedRow(e: Engine, p: Policy, candidates: seq<Record>, run: Run, src: Record)
    requires var ranked := Ranked(e, p, src, Narrowed(e, p, src, candidates));
      ranked != [] && Outcome(ranked, run.claimed, src) == Matched
    ensures var best := Ranked(e, p, src, Narrowed(e, p, src, candidates))[0];
      Justified(e, p, candidates, Row(src, best.record, best.decision, Matched))
  {
    var narrowed := Narrowed(e, p, src, candidates);
    var ranked := Ranked(e, p, src, narrowed);
    var best := ranked[0];
    RankedAre(e, p, src, narrowed, best);
    forall c | c in narrowed
      ensures Evaluate(e, p, src, c).score <= best.decision.score
      ensures Evaluate(e, p, src, c).class_ == Matched ==> c == best.record
    {
      BestIsFirst(e, p, src, narrowed, c);
      RankedAre(e, p, src, narrowed, Candidate(c, Evaluate(e, p, src, c)));
      if Evaluate(e, p, src, c).class_ == Matched {
        OnlyStrong(ranked, best, Candidate(c, Evaluate(e, p, src, c)));
      }
    }
  }

  ghost predicate AllJustified(e: Engine, p: Policy, candidates: seq<Record>, run: Run) {
    forall i :: 0 <= i < |run.rows| ==> Justified(e, p, candidates, run.rows[i])
  }

  /** What one source can add to the rows. */
  lemma NewRows(e: Engine, p: Policy, candidates: seq<Record>, run: Run, src: Record, fault: Fault)
    ensures var after := AfterSource(e, p, candidates, run, src, fault);
      var ranked := Ranked(e, p, src, Narrowed(e, p, src, candidates));
      || after.rows == run.rows
      || (ranked != [] && after.rows
            == run.rows + [Row(src, ranked[0].record, ranked[0].decision, Outcome(ranked, run.claimed, src))])
  {
  }

  lemma StepJustified(e: Engine, p: Policy, candidates: seq<Record>, run: Run, src: Record, fault: Fault)
    requires AllJustified(e, p, candidates, run)
    ensures AllJustified(e, p, candidates, AfterSource(e, p, candidates, run, src, fault))
  {
    var ranked := Ranked(e, p, src, Narrowed(e, p, src, candidates));
    NewRows(e, p, candidates, run, src, fault);
    if ranked != [] {
      var row := Row(src, ranked[0].record, ranked[0].decision, Outcome(ranked, run.claimed, src));
      if row.class_ == Matched {
        JustifiedRow(e, p, candidates, run, src);
      }
      assert Justified(e, p, candidates, row);
      OneMoreRow(e, p, candidates, run.rows, row);
    }
  }

  lemma OneMoreRow(e: Engine, p: Policy, candidates: seq<Record>, rows: seq<Row>, row: Row)
    requires Justified(e, p, candidates, row) && forall i :: 0 <= i < |rows| ==> Justified(e, p, candidates, rows[i])
    ensures forall i :: 0 <= i < |rows + [row]| ==> Justified(e, p, candidates, (rows + [row])[i])
  {
  }

  /** Every row of every run is justified. */
  lemma RowsJustified(e: Engine, p: Policy, candidates: seq<Record>, sources: seq<Record>, faults: nat -> Fault)
    ensures AllJustified(e, p, candidates, RunOf(e, p, candidates, sources, faults))
  {
    var inv := (run: Run) => AllJustified(e, p, candidates, run);
    var step := StepOf(e, p, candidates);
    forall run, src, fault | inv(run) ensures inv(step(run, src, fault)) {
      StepJustified(e, p, candidates, run, src, fault);
    }
    FoldKeeps(inv, step, sources, faults);
  }

  // ----- claims -----

  /** A claim never changes owner. */
  lemma ClaimKeepsOwner(e: Engine, p: Policy, candidates: seq<Record>, run: Run, src: Record, fault: Fault, c: string)
    requires c in run.claimed
    ensures var after := AfterSource(e, p, candidates, run, src, fault);
      c in after.claimed && after.claimed[c] == run.claimed[c]
  {
    var ranked := Ranked(e, p, src, Narrowed(e, p, src, candidates));
    if ranked != [] {
      OutcomeClaims(ranked, run.claimed, src);
    }
  }

  lemma OutcomeClaims(ranked: seq<Candidate>, claimed: map<string, string>, src: Record)
    requires ranked != []
    ensures Claims(Outcome(ranked, claimed, src)) ==> Claimable(claimed, ranked[0].record.recordId, src.recordId)
  {
  }

  /** Rows that claim their candidate agree with the claims. */
  ghost predicate RowsClaim(run: Run) {
    forall i :: 0 <= i < |run.rows| && Claims(run.rows[i].class_) ==> RowClaims(run, run.rows[i])
  }

  predicate RowClaims(run: Run, row: Row) {
    row.candidate.recordId in run.claimed && run.claimed[row.candidate.recordId] == row.source.recordId
  }

  lemma StepRowsClaim(e: Engine, p: Policy, candidates: seq<Record>, run: Run, src: Record, fault: Fault)
    requires RowsClaim(run)
    ensures RowsClaim(AfterSource(e, p, candidates, run, src, fault))
  {
    var after := AfterSource(e, p, candidates, run, src, fault);
    forall i | 0 <= i < |after.rows| && Claims(after.rows[i].class_) ensures RowClaims(after, after.rows[i]) {
      if i < |run.rows| {
        assert after.rows[i] == run.rows[i] && RowClaims(run, run.rows[i]);
        ClaimKeepsOwner(e, p, candidates, run, src, fault, run.rows[i].candidate.recordId);
      }
    }
  }

  lemma RunRowsClaim(e: Engine, p: Policy, candidates: seq<Record>, sources: seq<Record>, faults: nat -> Fault)
    ensures RowsClaim(RunOf(e, p, candidates, sources, faults))
  {
    var inv := (run: Run) => RowsClaim(run);
    var step := StepOf(e, p, candidates);
    forall run, src, fault | inv(run) ensures inv(step(run, src, fault)) {
      StepRowsClaim(e, p, candidates, run, src, fault);
    }
    FoldKeeps(inv, step, sources, faults);
  }

  /** One-to-one: no candidate stands in MATCHED or POSSIBLE_MATCH rows of two different sources. */
  lemma OneToOne(e: Engine, p: Policy, candidates: seq<Record>, sources: seq<Record>, faults: nat -> Fault, i: nat, j: nat)
    requires var rows := RunOf(e, p, candidates, sources, faults).rows;
      && i < |rows| && j < |rows| && Claims(rows[i].class_) && Claims(rows[j].class_)
      && rows[i].candidate.recordId == rows[j].candidate.recordId
    ensures var rows := RunOf(e, p, candidates, sources, faults).rows; rows[i].source.recordId == rows[j].source.recordId
  {
    RunRowsClaim(e, p, candidates, sources, faults);
    var run := RunOf(e, p, candidates, sources, faults);
    assert RowClaims(run, run.rows[i]) && RowClaims(run, run.rows[j]);
  }

  // ----- counters -----

  /** Persisting the row of this source raises after the source has been counted. */
  predicate RaisesLate(e: Engine, p: Policy, candidates: seq<Record>, src: Record, fault: Fault) {
    var ranked := Ranked(e, p, src, Narrowed(e, p, src, candidates));
    fault.PersistRaises? && ranked != [] && ranked[0].decision.class_ != Unmatched
  }

  function LateOf(e: Engine, p: Policy, candidates: seq<Record>): (Record, Fault) -> bool {
    (src: Record, fault: Fault) => RaisesLate(e, p, candidates, src, fault)
  }

  function LateCount(late: (Record, Fault) -> bool, sources: seq<Record>, faults: nat -> Fault): nat {
    if sources == [] then 0
    else
      var n := |sources| - 1;
      LateCount(late, sources[..n], faults) + if late(sources[n], faults(n)) then 1 else 0
  }

  function Assignments(c: Counts): nat { c.matched + c.possibleMatch + c.reviewRequired + c.duplicateCandidate }

  lemma OutcomeNotUnmatched(ranked: seq<Candidate>, claimed: map<string, string>, src: Record)
    requires ranked != [] && ranked[0].decision.class_ != Unmatched
    ensures Outcome(ranked, claimed, src) != Unmatched
  {
  }

  /** Every source is counted once, and once more in `failed` when persisting its row raised; the rows
      are the assigned sources whose persisting did not raise. */
  predicate Partitioned(run: Run, sources: nat, late: nat) {
    && Assignments(run.counts) + run.counts.unmatched + run.counts.failed == sources + late
    && |run.rows| + late == Assignments(run.counts)
    && late <= run.counts.failed
  }

  lemma StepPartitioned(e: Engine, p: Policy, candidates: seq<Record>, run: Run, src: Record, fault: Fault, n: nat, late: nat)
    requires Partitioned(run, n, late)
    ensures Partitioned(AfterSource(e, p, candidates, run, src, fault), n + 1,
                        late + if RaisesLate(e, p, candidates, src, fault) then 1 else 0)
  {
    var ranked := Ranked(e, p, src, Narrowed(e, p, src, candidates));
    if ranked != [] && ranked[0].decision.class_ != Unmatched {
      OutcomeNotUnmatched(ranked, run.claimed, src);
      AssignedCounts(run, src, ranked[0], Outcome(ranked, run.claimed, src), fault);
    }
  }

  ghost predicate KeepsPartition(step: SourceStep, late: (Record, Fault) -> bool) {
    forall run, src, fault, n: nat, l: nat {:trigger Partitioned(run, n, l), step(run, src, fault)} ::
      Partitioned(run, n, l) ==> Partitioned(step(run, src, fault), n + 1, l + if late(src, fault) then 1 else 0)
  }

  lemma NothingCounted()
    ensures Partitioned(EMPTY_RUN, 0, 0)
  {
  }

  /** Sources that each keep the counters a partition keep it together. */
  lemma {:induction false} FoldPartitioned(step: SourceStep, late: (Record, Fault) -> bool,
                                           sources: seq<Record>, faults: nat -> Fault)
    requires KeepsPartition(step, late)
    ensures Partitioned(Fold(step, sources, faults), |sources|, LateCount(late, sources, faults))
  {
    if sources == [] {
      NothingCounted();
    } else {
      var n := |sources| - 1;
      FoldPartitioned(step, late, sources[..n], faults);
      var before, l := Fold(step, sources[..n], faults), LateCount(late, sources[..n], faults);
      assert Partitioned(before, n, l);
      assert Partitioned(step(before, sources[n], faults(n)), n + 1, l + if late(sources[n], faults(n)) then 1 else 0);
    }
  }

  lemma SourcesPartition(e: Engine, p: Policy, candidates: seq<Record>)
    ensures KeepsPartition(StepOf(e, p, candidates), LateOf(e, p, candidates))
  {
    var step, late := StepOf(e, p, candidates), LateOf(e, p, candidates);
    forall run, src, fault, n: nat, l: nat | Partitioned(run, n, l)
      ensures Partitioned(step(run, src, fault), n + 1, l + if late(src, fault) then 1 else 0)
    {
      StepPartitioned(e, p, candidates, run, src, fault, n, l);
    }
  }

  /** The counters of every run partition its sources. */
  lemma CountersPartition(e: Engine, p: Policy, candidates: seq<Record>, sources: seq<Record>, faults: nat -> Fault)
    ensures Partitioned(RunOf(e, p, candidates, sources, faults), |sources|,
                        LateCount(LateOf(e, p, candidates), sources, faults))
  {
    SourcesPartition(e, p, candidates);
    FoldPartitioned(StepOf(e, p, candidates), LateOf(e, p, candidates), sources, faults);
  }

  lemma AssignedCounts(run: Run, src: Record, best: Candidate, class_: Class, fault: Fault)
    requires class_ != Unmatched
    ensures var after := Assigned(run, src, best, class_, fault); var late := if fault.PersistRaises? then 1 else 0;
      && Assignments(after.counts) == Assignments(run.counts) + 1 && after.counts.unmatched == run.counts.unmatched
      && after.counts.failed == run.counts.failed + late && |after.rows| + late == |run.rows| + 1
  {
  }

  // ----- a source with a twin -----

  lemma BestScores100(e: Engine, p: Policy, src: Record, narrowed: seq<Record>, twin: Record)
    requires twin in narrowed && Evaluate(e, p, src, twin).score == 10000 && p.review <= 100.0
    ensures var ranked := Ranked(e, p, src, narrowed);
      ranked != [] && ranked[0].decision.score == 10000 && ranked[0].decision.class_ != Unmatched
  {
    BestIsFirst(e, p, src, narrowed, twin);
    var best := Ranked(e, p, src, narrowed)[0];
    RankedAre(e, p, src, narrowed, best);
    ScoreInRange(e, p, src, best.record);
    FullScoreClass(best.decision.conflicts, p);
  }

  lemma TwinNarrowed(e: Engine, p: Policy, candidates: seq<Record>, src: Record, twin: Record)
    requires twin in candidates && Twins(src, twin) && twin.recordId != src.recordId
    requires src.amount.Some? ==> src.amount.value * Tolerance(p) >= 0.0
    requires |Survivors(e, p, src, candidates)| <= DEFAULT_MAX_CANDIDATES
    ensures twin in Narrowed(e, p, src, candidates)
  {
    TwinSurvives(e, p, src, twin);
    SurvivorsAre(e, p, src, candidates, twin);
  }

  /** With at most twenty survivors, a source whose twin survives narrowing is never counted unmatched:
      its best candidate scores 100. */
  lemma TwinIsFound(e: Engine, p: Policy, candidates: seq<Record>, run: Run, src: Record, twin: Record, f: Field)
    requires twin in candidates && Twins(src, twin) && twin.recordId != src.recordId
    requires src.amount.Some? ==> src.amount.value * Tolerance(p) >= 0.0
    requires |Survivors(e, p, src, candidates)| <= DEFAULT_MAX_CANDIDATES
    requires DatesAgree(e, p, src) && Present(e, src, f) && WeightIn(p, f) > 0.0
    requires p.review <= 100.0
    ensures var after := AfterSource(e, p, candidates, run, src, NoFault);
      && after.counts.unmatched == run.counts.unmatched
      && |after.rows| == |run.rows| + 1 && after.rows[|run.rows|].decision.score == 10000
  {
    TwinNarrowed(e, p, candidates, src, twin);
    var narrowed := Narrowed(e, p, src, candidates);
    TwinsScore100(e, p, src, twin, f);
    BestScores100(e, p, src, narrowed, twin);
    FoundBest(e, p, candidates, run, src);
  }

  lemma FoundBest(e: Engine, p: Policy, candidates: seq<Record>, run: Run, src: Record)
    requires var ranked := Ranked(e, p, src, Narrowed(e, p, src, candidates));
      ranked != [] && ranked[0].decision.class_ != Unmatched
    ensures var after := AfterSource(e, p, candidates, run, src, NoFault);
      && after.counts.unmatched == run.counts.unmatched && |after.rows| == |run.rows| + 1
      && after.rows[|run.rows|].decision == Ranked(e, p, src, Narrowed(e, p, src, candidates))[0].decision
  {
    var ranked := Ranked(e, p, src, Narrowed(e, p, src, candidates));
    OutcomeNotUnmatched(ranked, run.claimed, src);
    AssignedCounts(run, src, ranked[0], Outcome(ranked, run.claimed, src), NoFault);
  }

  lemma FullScoreClass(conflicts: seq<Conflict>, p: Policy)
    requires p.review <= 100.0
    ensures Classify(10000, conflicts, p) != Unmatched
  {
  }

  // ----- a source that is counted twice -----

  lemma TwinRaisesLate(e: Engine, p: Policy, candidates: seq<Record>, src: Record, twin: Record, f: Field)
    requires twin in candidates && Twins(src, twin) && twin.recordId != src.recordId
    requires src.amount.Some? ==> src.amount.value * Tolerance(p) >= 0.0
    requires |Survivors(e, p, src, candidates)| <= DEFAULT_MAX_CANDIDATES
    requires DatesAgree(e, p, src) && Present(e, src, f) && WeightIn(p, f) > 0.0
    requires p.review <= 100.0
    ensures RaisesLate(e, p, candidates, src, PersistRaises)
  {
    TwinNarrowed(e, p, candidates, src, twin);
    TwinsScore100(e, p, src, twin, f);
    BestScores100(e, p, src, Narrowed(e, p, src, candidates), twin);
  }

  lemma OneLate(late: (Record, Fault) -> bool, src: Record, faults: nat -> Fault)
    requires late(src, faults(0))
    ensures LateCount(late, [src], faults) == 1
  {
    assert [src][..0] == [];
  }

  lemma FewSurvivors(e: Engine, p: Policy, src: Record, c: Record)
    ensures |Survivors(e, p, src, [c])| <= 1
  {
    assert [c][..0] == [];
  }

  /** One source, one twin, and a row that cannot be persisted: the counters sum to two. */
  lemma CountedTwice(e: Engine, p: Policy) returns (src: Record, twin: Record)
    requires e.normalize(EndToEndId, "X") == Some("X") && WeightIn(p, EndToEndId) > 0.0 && p.review <= 100.0
    ensures var c := RunOf(e, p, [twin], [src], _ => PersistRaises).counts; Assignments(c) + c.unmatched + c.failed == 2
  {
    src := Record("source", map[EndToEndId := "X"], None, None, None);
    twin := src.(recordId := "twin");
    FewSurvivors(e, p, src, twin);
    TwinRaisesLate(e, p, [twin], src, twin, EndToEndId);
    OneLate(LateOf(e, p, [twin]), src, _ => PersistRaises);
    CountersPartition(e, p, [twin], [src], _ => PersistRaises);
  }
}
