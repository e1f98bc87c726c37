// What becomes of one source record: which candidate it gets, which counter counts it, and which claim it
// leaves, in terms of the decisions about its narrowed candidates.
module MatchOutcomes {
  import opened Strings
  import opened Sorting
  import opened Matcher
  import opened Narrowing
  import opened MatchRuns

  // ----- the first of a sorted list, and what sorting leaves countable -----

  /** The first element with the least key. */
  ghost predicate FirstLeast<T(!new)>(s: seq<T>, key: T -> int, k: nat) {
    && k < |s| && (forall i :: 0 <= i < |s| ==> key(s[k]) <= key(s[i]))
    && (forall i :: 0 <= i < k ==> key(s[k]) < key(s[i]))
  }

  lemma {:induction false} SortedFirst<T(!new)>(s: seq<T>, key: T -> int) returns (k: nat)
    requires s != []
    ensures FirstLeast(s, key, k) && StableSort(s, key) != [] && StableSort(s, key)[0] == s[k]
  {
    k := 0;
    if |s| > 1 {
      var rest := s[1..];
      var j := SortedFirst(rest, key);
      if key(s[0]) > key(rest[j]) {
        k := j + 1;
        forall i | 0 <= i < |s| ensures key(s[k]) <= key(s[i]) && (i < k ==> key(s[k]) < key(s[i])) {
          assert i > 0 ==> s[i] == rest[i - 1];
        }
      } else {
        forall i | 0 <= i < |s| ensures key(s[0]) <= key(s[i]) {
          assert i > 0 ==> s[i] == rest[i - 1];
        }
      }
    }
  }

  lemma {:induction false} InsertCount<T(!new)>(x: T, s: seq<T>, key: T -> int, p: T -> bool)
    ensures |Filter(p, Insert(x, s, key))| == |Filter(p, s)| + if p(x) then 1 else 0
  {
    if s == [] || key(x) <= key(s[0]) {
      FilterCons(p, x, s);
    } else {
      InsertCount(x, s[1..], key, p);
      FilterCons(p, s[0], Insert(x, s[1..], key));
      FilterCons(p, s[0], s[1..]);
      assert s == [s[0]] + s[1..];
    }
  }

  lemma {:induction false} SortCount<T(!new)>(s: seq<T>, key: T -> int, p: T -> bool)
    ensures |Filter(p, StableSort(s, key))| == |Filter(p, s)|
  {
    if s != [] {
      SortCount(s[1..], key, p);
      InsertCount(s[0], StableSort(s[1..], key), key, p);
    }
  }

  ghost predicate TwoHold<T(!new)>(s: seq<T>, p: T -> bool) { exists i, j :: 0 <= i < j < |s| && p(s[i]) && p(s[j]) }

  lemma {:induction false} SomeHolds<T(!new)>(s: seq<T>, p: T -> bool)
    ensures |Filter(p, s)| > 0 <==> exists i :: 0 <= i < |s| && p(s[i])
  {
    if s != [] {
      SomeHolds(s[1..], p);
      if exists i :: 0 <= i < |s| && p(s[i]) {
        var i :| 0 <= i < |s| && p(s[i]);
        assert i > 0 ==> s[1..][i - 1] == s[i];
      }
    }
  }

  lemma {:induction false} TwoIff<T(!new)>(s: seq<T>, p: T -> bool)
    ensures |Filter(p, s)| > 1 <==> TwoHold(s, p)
  {
    if s != [] {
      var rest := s[1..];
      TwoIff(rest, p);
      SomeHolds(rest, p);
      if TwoHold(s, p) {
        var i, j :| 0 <= i < j < |s| && p(s[i]) && p(s[j]);
        assert s[j] == rest[j - 1] && (i > 0 ==> s[i] == rest[i - 1]);
      }
      if TwoHold(rest, p) {
        var i, j :| 0 <= i < j < |rest| && p(rest[i]) && p(rest[j]);
        assert s[i + 1] == rest[i] && s[j + 1] == rest[j];
      }
      if p(s[0]) && exists i :: 0 <= i < |rest| && p(rest[i]) {
        var i :| 0 <= i < |rest| && p(rest[i]);
        assert s[i + 1] == rest[i];
      }
    }
  }

  // ----- the decisions about one source -----

  /** The first of the candidates with the highest score. */
  ghost predicate BestAt(e: Engine, p: Policy, src: Record, cands: seq<Record>, k: nat) {
    && k < |cands|
    && (forall i :: 0 <= i < |cands| ==> Evaluate(e, p, src, cands[i]).score <= Evaluate(e, p, src, cands[k]).score)
    && (forall i :: 0 <= i < k ==> Evaluate(e, p, src, cands[i]).score < Evaluate(e, p, src, cands[k]).score)
  }

  predicate IsMatch(e: Engine, p: Policy, src: Record, c: Record) { Evaluate(e, p, src, c).class_ == Matched }

  ghost predicate TwoMatches(e: Engine, p: Policy, src: Record, cands: seq<Record>) {
    exists i, j :: 0 <= i < j < |cands| && IsMatch(e, p, src, cands[i]) && IsMatch(e, p, src, cands[j])
  }

  predicate ClaimedByOther(run: Run, c: Record, src: Record) {
    c.recordId in run.claimed && run.claimed[c.recordId] != src.recordId
  }

  lemma {:induction false} DecisionAt(decide: Record -> Candidate, cands: seq<Record>, i: nat)
    requires i < |cands|
    ensures Decisions(decide, cands)[i] == decide(cands[i])
  {
    if i < |cands| - 1 {
      DecisionAt(decide, cands[..|cands| - 1], i);
    }
  }

  lemma Best(e: Engine, p: Policy, src: Record, cands: seq<Record>) returns (k: nat)
    requires cands != []
    ensures BestAt(e, p, src, cands, k) && Ranked(e, p, src, cands) != []
    ensures Ranked(e, p, src, cands)[0] == Candidate(cands[k], Evaluate(e, p, src, cands[k]))
  {
    var decide := DecisionFn(e, p, src);
    var ds := Decisions(decide, cands);
    k := SortedFirst(ds, ByScore());
    forall i | 0 <= i < |cands| ensures ds[i] == Candidate(cands[i], Evaluate(e, p, src, cands[i])) {
      DecisionAt(decide, cands, i);
    }
    LeastIsBest(e, p, src, cands, ds, k);
  }

  lemma LeastIsBest(e: Engine, p: Policy, src: Record, cands: seq<Record>, ds: seq<Candidate>, k: nat)
    requires |ds| == |cands| && FirstLeast(ds, ByScore(), k)
    requires forall i :: 0 <= i < |cands| ==> ds[i] == Candidate(cands[i], Evaluate(e, p, src, cands[i]))
    ensures BestAt(e, p, src, cands, k)
  {
    forall i | 0 <= i < |cands|
      ensures Evaluate(e, p, src, cands[i]).score <= Evaluate(e, p, src, cands[k]).score
      ensures i < k ==> Evaluate(e, p, src, cands[i]).score < Evaluate(e, p, src, cands[k]).score
    {
      assert ByScore()(ds[k]) <= ByScore()(ds[i]) && (i < k ==> ByScore()(ds[k]) < ByScore()(ds[i]));
    }
  }

  lemma ManyStrong(e: Engine, p: Policy, src: Record, cands: seq<Record>)
    ensures |Strong(Ranked(e, p, src, cands))| > 1 <==> TwoMatches(e, p, src, cands)
  {
    var decide := DecisionFn(e, p, src);
    var ds := Decisions(decide, cands);
    SortCount(ds, ByScore(), IsStrong());
    TwoIff(ds, IsStrong());
    forall i | 0 <= i < |cands| ensures IsStrong()(ds[i]) <==> IsMatch(e, p, src, cands[i]) {
      DecisionAt(decide, cands, i);
    }
    if TwoHold(ds, IsStrong()) {
      var i, j :| 0 <= i < j < |ds| && IsStrong()(ds[i]) && IsStrong()(ds[j]);
      assert IsMatch(e, p, src, cands[i]) && IsMatch(e, p, src, cands[j]);
    }
    if TwoMatches(e, p, src, cands) {
      var i, j :| 0 <= i < j < |cands| && IsMatch(e, p, src, cands[i]) && IsMatch(e, p, src, cands[j]);
      assert IsStrong()(ds[i]) && IsStrong()(ds[j]);
    }
  }

  // ----- what becomes of the source -----

  /** The source stays without a candidate. */
  predicate LeftUnmatched(run: Run, after: Run) { after == run.(counts := run.counts.(unmatched := run.counts.unmatched + 1)) }

  /** The source gets candidate `c` with class `k`; only MATCHED and POSSIBLE_MATCH claim it. */
  predicate GetsCandidate(run: Run, after: Run, src: Record, c: Record, d: Decision, k: Class) {
    && after.rows == run.rows + [Row(src, c, d, k)]
    && after.claimed == (if k == Matched || k == PossibleMatch then run.claimed[c.recordId := src.recordId] else run.claimed)
    && (match k
        case Matched => after.counts == run.counts.(matched := run.counts.matched + 1)
        case PossibleMatch => after.counts == run.counts.(possibleMatch := run.counts.possibleMatch + 1)
        case ReviewRequired => after.counts == run.counts.(reviewRequired := run.counts.reviewRequired + 1)
        case DuplicateCandidate => after.counts == run.counts.(duplicateCandidate := run.counts.duplicateCandidate + 1)
        case Unmatched => false)
  }

  /** The source's class, by its best candidate, the number of MATCHED ones and the claims. */
  ghost function ClassOf(e: Engine, p: Policy, cands: seq<Record>, run: Run, src: Record, best: Record): Class {
    if TwoMatches(e, p, src, cands) then DuplicateCandidate
    else if ClaimedByOther(run, best, src) then ReviewRequired
    else Evaluate(e, p, src, best).class_
  }

  ghost predicate Becomes(e: Engine, p: Policy, cands: seq<Record>, run: Run, after: Run, src: Record, k: nat) {
    && BestAt(e, p, src, cands, k)
    && var best := cands[k];
    var d := Evaluate(e, p, src, best);
    if d.class_ == Unmatched then LeftUnmatched(run, after)
    else GetsCandidate(run, after, src, best, d, ClassOf(e, p, cands, run, src, best))
  }

  lemma AssignedIs(run: Run, src: Record, best: Candidate, k: Class)
    requires k != Unmatched
    ensures GetsCandidate(run, Assigned(run, src, best, k, NoFault), src, best.record, best.decision, k)
  {
  }

  lemma OutcomeIs(e: Engine, p: Policy, cands: seq<Record>, run: Run, src: Record, best: Record)
    requires Ranked(e, p, src, cands) != [] && Ranked(e, p, src, cands)[0] == Candidate(best, Evaluate(e, p, src, best))
    ensures Outcome(Ranked(e, p, src, cands), run.claimed, src) == ClassOf(e, p, cands, run, src, best)
  {
    ManyStrong(e, p, src, cands);
  }

  /** For every source and every state of the run: without a narrowed candidate it is counted unmatched;
      otherwise the first of those with the highest score decides, and the source is counted unmatched, or
      gets that candidate with the class that follows from the decisions and the claims. */
  lemma SourceBecomes(e: Engine, p: Policy, candidates: seq<Record>, run: Run, src: Record)
    ensures var cands, after := Narrowed(e, p, src, candidates), AfterSource(e, p, candidates, run, src, NoFault);
      if cands == [] then LeftUnmatched(run, after) else exists k: nat :: Becomes(e, p, cands, run, after, src, k)
  {
    var cands := Narrowed(e, p, src, candidates);
    RankedSome(e, p, src, cands);
    if cands != [] {
      var k := Best(e, p, src, cands);
      OutcomeIs(e, p, cands, run, src, cands[k]);
      BestDecides(e, p, candidates, run, src, k);
    }
  }

  lemma AfterRanked(e: Engine, p: Policy, candidates: seq<Record>, run: Run, src: Record, ranked: seq<Candidate>)
    requires ranked == Ranked(e, p, src, Narrowed(e, p, src, candidates)) && ranked != []
    ensures AfterSource(e, p, candidates, run, src, NoFault) ==
      if ranked[0].decision.class_ == Unmatched then run.(counts := run.counts.(unmatched := run.counts.unmatched + 1))
      else Assigned(run, src, ranked[0], Outcome(ranked, run.claimed, src), NoFault)
  {
  }

  lemma BestDecides(e: Engine, p: Policy, candidates: seq<Record>, run: Run, src: Record, k: nat)
    requires var cands := Narrowed(e, p, src, candidates);
      && BestAt(e, p, src, cands, k) && Ranked(e, p, src, cands) != []
      && Ranked(e, p, src, cands)[0] == Candidate(cands[k], Evaluate(e, p, src, cands[k]))
      && Outcome(Ranked(e, p, src, cands), run.claimed, src) == ClassOf(e, p, cands, run, src, cands[k])
    ensures Becomes(e, p, Narrowed(e, p, src, candidates), run, AfterSource(e, p, candidates, run, src, NoFault), src, k)
  {
    var cands := Narrowed(e, p, src, candidates);
    var ranked := Ranked(e, p, src, cands);
    AfterRanked(e, p, candidates, run, src, ranked);
    BecomesBest(e, p, cands, run, AfterSource(e, p, candidates, run, src, NoFault), src, k, ranked);
  }

  lemma BecomesBest(e: Engine, p: Policy, cands: seq<Record>, run: Run, after: Run, src: Record, k: nat, ranked: seq<Candidate>)
    requires BestAt(e, p, src, cands, k) && ranked != [] && ranked[0] == Candidate(cands[k], Evaluate(e, p, src, cands[k]))
    requires Outcome(ranked, run.claimed, src) == ClassOf(e, p, cands, run, src, cands[k])
    requires after ==
      if ranked[0].decision.class_ == Unmatched then run.(counts := run.counts.(unmatched := run.counts.unmatched + 1))
      else Assigned(run, src, ranked[0], Outcome(ranked, run.claimed, src), NoFault)
    ensures Becomes(e, p, cands, run, after, src, k)
  {
    if ranked[0].decision.class_ != Unmatched {
      OutcomeNotUnmatched(ranked, run.claimed, src);
      AssignedIs(run, src, ranked[0], Outcome(ranked, run.claimed, src));
    }
  }

  lemma OnlyBest(e: Engine, p: Policy, src: Record, cands: seq<Record>, k: nat, l: nat)
    requires BestAt(e, p, src, cands, k) && BestAt(e, p, src, cands, l)
    ensures k == l
  {
  }

  /** A source whose best candidate is MATCHED, is the only MATCHED one and is claimed by no other source ends
      MATCHED with it, and claims it. */
  lemma SoleMatchIsTaken(e: Engine, p: Policy, candidates: seq<Record>, run: Run, src: Record, k: nat)
    requires var cands := Narrowed(e, p, src, candidates);
      && BestAt(e, p, src, cands, k) && IsMatch(e, p, src, cands[k])
      && (forall i :: 0 <= i < |cands| && IsMatch(e, p, src, cands[i]) ==> i == k) && !ClaimedByOther(run, cands[k], src)
    ensures var c, after := Narrowed(e, p, src, candidates)[k], AfterSource(e, p, candidates, run, src, NoFault);
      && after.counts == run.counts.(matched := run.counts.matched + 1)
      && after.claimed == run.claimed[c.recordId := src.recordId]
      && after.rows == run.rows + [Row(src, c, Evaluate(e, p, src, c), Matched)]
  {
    var cands, after := Narrowed(e, p, src, candidates), AfterSource(e, p, candidates, run, src, NoFault);
    SourceBecomes(e, p, candidates, run, src);
    var l: nat :| Becomes(e, p, cands, run, after, src, l);
    OnlyBest(e, p, src, cands, k, l);
    NoTwo(e, p, src, cands, k);
    assert ClassOf(e, p, cands, run, src, cands[k]) == Matched;
  }

  lemma NoTwo(e: Engine, p: Policy, src: Record, cands: seq<Record>, k: nat)
    requires forall i :: 0 <= i < |cands| && IsMatch(e, p, src, cands[i]) ==> i == k
    ensures !TwoMatches(e, p, src, cands)
  {
  }
}
