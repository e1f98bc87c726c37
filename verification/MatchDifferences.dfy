// What a difference between two records does to their score, their conflicts and their class.
module MatchDifferences {
  import opened Strings
  import opened Matcher

  // ----- when two records differ in a field -----

  /** The record carries a text for the field, and this is its normalized value. */
  predicate ValueIs(e: Engine, r: Record, f: Field, x: string) {
    f in r.texts && r.texts[f] != "" && e.normalize(f, r.texts[f]) == Some(x)
  }

  ghost predicate TextsDiffer(e: Engine, a: Record, b: Record, f: Field) {
    exists x, y :: ValueIs(e, a, f, x) && ValueIs(e, b, f, y) && x != y
  }

  /** The texts differ, and are less than 85 alike. */
  ghost predicate TextsUnlike(e: Engine, p: Policy, a: Record, b: Record, f: Field, bound: real) {
    exists x, y :: ValueIs(e, a, f, x) && ValueIs(e, b, f, y) && x != y && Likeness(e, p, f, x, y) < bound
  }

  function Likeness(e: Engine, p: Policy, f: Field, x: string, y: string): real {
    Similarity(e, x, y, Get(p.fuzzyAlgorithms, f, "token_sort_ratio"))
  }

  /** Both amounts are given, differ, and lie outside the tolerance, if there is one: that percentage of the
      largest of the two magnitudes and 1. */
  predicate AmountsDiffer(p: Policy, a: Record, b: Record) {
    && a.amount.Some? && b.amount.Some?
    && var x, y := a.amount.value, b.amount.value;
    var gap := if x < y then y - x else x - y;
    && x != y
    && (p.amountTolerance.Some? ==>
          var share := p.amountTolerance.value / 100.0;
          var size := Max(Max(if x < 0.0 then -x else x, if y < 0.0 then -y else y), 1.0);
          gap > size * share)
  }

  /** Both days are given and lie more than the window apart; without a window, they differ. */
  predicate DaysDiffer(p: Policy, x: Option<int>, y: Option<int>, f: Field) {
    && x.Some? && y.Some?
    && var window := if f in p.dateTolerances then p.dateTolerances[f] else 0;
    x.value - y.value > window || y.value - x.value > window
  }

  ghost predicate Differs(e: Engine, p: Policy, a: Record, b: Record, f: Field) {
    match f
    case AmountField => AmountsDiffer(p, a, b)
    case BookingDate => DaysDiffer(p, a.bookingDate, b.bookingDate, f)
    case ValueDate => DaysDiffer(p, a.valueDate, b.valueDate, f)
    case RemittanceReference => TextsUnlike(e, p, a, b, f, 85.0)
    case ExternalReference => TextsUnlike(e, p, a, b, f, 85.0)
    case DebtorName => TextsUnlike(e, p, a, b, f, 85.0)
    case CreditorName => TextsUnlike(e, p, a, b, f, 85.0)
    case _ => TextsDiffer(e, a, b, f)
  }

  predicate InBoth(e: Engine, a: Record, b: Record, f: Field) { Present(e, a, f) && Present(e, b, f) }

  lemma TextIs(e: Engine, r: Record, f: Field)
    ensures TextOf(e, r, f).Some? <==> exists x :: ValueIs(e, r, f, x)
    ensures TextOf(e, r, f).Some? ==> ValueIs(e, r, f, TextOf(e, r, f).value)
    ensures forall x :: ValueIs(e, r, f, x) ==> TextOf(e, r, f) == Some(x)
  {
    if TextOf(e, r, f).Some? {
      assert ValueIs(e, r, f, TextOf(e, r, f).value);
    }
  }

  /** Similarity is the library's, between 0 and 100; only the first 512 characters count, an unknown
      algorithm counts as `token_sort_ratio`, and an empty text is like nothing. */
  lemma SimilarityMeans(e: Engine, x: string, y: string, more: string, algorithm: string)
    requires 0 < |x| <= 512 && 0 < |y| <= 512
    ensures algorithm in ["ratio", "partial_ratio", "token_set_ratio", "token_sort_ratio"] ==>
      var s := e.fuzz(algorithm, x, y);
      Similarity(e, x, y, algorithm) == if s < 0.0 then 0.0 else if 100.0 < s then 100.0 else s
    ensures algorithm !in ["ratio", "partial_ratio", "token_set_ratio"] ==>
      Similarity(e, x, y, algorithm) == Similarity(e, x, y, "token_sort_ratio")
    ensures |x| == 512 ==> Similarity(e, x + more, y, algorithm) == Similarity(e, x, y, algorithm)
    ensures |y| == 512 ==> Similarity(e, x, y + more, algorithm) == Similarity(e, x, y, algorithm)
    ensures Similarity(e, x, "", algorithm) == Similarity(e, "", y, algorithm) == 0.0
  {
    assert |x| == 512 ==> Capped(x + more) == x;
    assert |y| == 512 ==> Capped(y + more) == y;
  }

  lemma AmountMeans(e: Engine, p: Policy, a: Record, b: Record)
    ensures Compare(e, p, a, b, AmountField).status == Mismatch <==> AmountsDiffer(p, a, b)
  {
  }

  lemma ExactMeans(e: Engine, p: Policy, a: Record, b: Record, f: Field)
    requires !Fuzzy(f) && !f.AmountField? && !f.BookingDate? && !f.ValueDate?
    ensures var c := Compare(e, p, a, b, f);
      && (c.status == Missing <==> !InBoth(e, a, b, f)) && (c.status == Mismatch <==> TextsDiffer(e, a, b, f))
      && c.similarity == if c.status == Exact then 100.0 else 0.0
  {
    TextIs(e, a, f);
    TextIs(e, b, f);
  }

  lemma FuzzyMeans(e: Engine, p: Policy, a: Record, b: Record, f: Field)
    requires Fuzzy(f)
    ensures var c := Compare(e, p, a, b, f);
      && (c.status == Missing <==> !InBoth(e, a, b, f)) && (c.status == Mismatch <==> TextsUnlike(e, p, a, b, f, 85.0))
      && (c.status == Mismatch && c.similarity < NAME_MISMATCH_THRESHOLD && c.nonEmpty <==> NamesApart(e, p, a, b, f))
      && (InBoth(e, a, b, f) && !TextsDiffer(e, a, b, f) ==> c.similarity == 100.0)
  {
    TextIs(e, a, f);
    TextIs(e, b, f);
  }

  /** Two texts that are given, differ and are less than 70 alike. */
  ghost predicate NamesApart(e: Engine, p: Policy, a: Record, b: Record, f: Field) {
    exists x, y :: ValueIs(e, a, f, x) && ValueIs(e, b, f, y) && x != "" && y != "" && x != y && Likeness(e, p, f, x, y) < 70.0
  }

  /** The status of every field: missing unless both records carry it, a mismatch exactly when they differ
      in it; outside the fuzzy fields, similarity is 100 or 0. */
  lemma ComparisonMeans(e: Engine, p: Policy, a: Record, b: Record, f: Field)
    ensures var c := Compare(e, p, a, b, f);
      && (c.status == Missing <==> !InBoth(e, a, b, f))
      && (c.status == Mismatch <==> Differs(e, p, a, b, f))
      && (!Fuzzy(f) ==> c.similarity == if c.status == Exact then 100.0 else 0.0)
  {
    if f.AmountField? {
      AmountMeans(e, p, a, b);
    } else if Fuzzy(f) {
      FuzzyMeans(e, p, a, b, f);
    } else if !f.BookingDate? && !f.ValueDate? {
      ExactMeans(e, p, a, b, f);
    }
  }

  // ----- conflicts and class -----

  lemma {:induction false} SomeFieldConflicts(result: Field -> FieldResult, fields: seq<Field>, critical: set<Field>, c: Conflict)
    ensures c in Conflicts(Collect(result, fields), critical) <==> exists f :: f in fields && c in ConflictsOf(result(f), critical)
  {
    if fields != [] {
      var front, last := fields[..|fields| - 1], fields[|fields| - 1];
      SomeFieldConflicts(result, front, critical, c);
      AppendConflicts(Collect(result, front), result(last), critical);
      assert fields == front + [last];
    }
  }

  predicate IsName(f: Field) { f.DebtorName? || f.CreditorName? }

  lemma ConflictsAre(r: FieldResult, critical: set<Field>, g: Field)
    ensures FieldConflict(g) in ConflictsOf(r, critical) <==> g == r.field && r.field in critical && r.comparison.status == Mismatch
    ensures NameConflict(g) in ConflictsOf(r, critical) <==>
      && g == r.field && IsName(r.field) && r.comparison.status == Mismatch
      && r.comparison.similarity < NAME_MISMATCH_THRESHOLD && r.comparison.nonEmpty
  {
  }

  lemma OwnConflicts(e: Engine, p: Policy, a: Record, b: Record, f: Field, g: Field)
    ensures FieldConflict(g) in ConflictsOf(ResultOf(e, p, a, b, f), p.criticalFields)
      <==> g == f && f in p.criticalFields && Differs(e, p, a, b, f)
    ensures NameConflict(g) in ConflictsOf(ResultOf(e, p, a, b, f), p.criticalFields)
      <==> g == f && IsName(f) && NamesApart(e, p, a, b, f)
  {
    ConflictsAre(ResultOf(e, p, a, b, f), p.criticalFields, g);
    ComparisonMeans(e, p, a, b, f);
    if IsName(f) {
      FuzzyMeans(e, p, a, b, f);
    }
  }

  lemma FieldConflictIff(e: Engine, p: Policy, a: Record, b: Record, f: Field)
    ensures FieldConflict(f) in Evaluate(e, p, a, b).conflicts <==> f in p.criticalFields && Differs(e, p, a, b, f)
    ensures NameConflict(f) in Evaluate(e, p, a, b).conflicts <==> IsName(f) && NamesApart(e, p, a, b, f)
  {
    var result := ResultFn(e, p, a, b);
    SomeFieldConflicts(result, FIELDS, p.criticalFields, FieldConflict(f));
    SomeFieldConflicts(result, FIELDS, p.criticalFields, NameConflict(f));
    FieldListed(f);
    OwnConflicts(e, p, a, b, f, f);
    forall g | g in FIELDS && g != f
      ensures FieldConflict(f) !in ConflictsOf(result(g), p.criticalFields) && NameConflict(f) !in ConflictsOf(result(g), p.criticalFields)
    {
      OwnConflicts(e, p, a, b, g, f);
    }
  }

  /** A critical field differs, or a party name is far from the other. */
  ghost predicate Conflicting(e: Engine, p: Policy, a: Record, b: Record, f: Field) {
    (f in p.criticalFields && Differs(e, p, a, b, f)) || (IsName(f) && NamesApart(e, p, a, b, f))
  }

  ghost predicate AnyConflict(e: Engine, p: Policy, a: Record, b: Record) { exists f :: Conflicting(e, p, a, b, f) }

  lemma ConflictIff(e: Engine, p: Policy, a: Record, b: Record)
    ensures Evaluate(e, p, a, b).conflicts != [] <==> AnyConflict(e, p, a, b)
  {
    var conflicts := Evaluate(e, p, a, b).conflicts;
    if conflicts != [] {
      var f := conflicts[0].field;
      FieldConflictIff(e, p, a, b, f);
      assert conflicts[0] in conflicts;
      assert Conflicting(e, p, a, b, f);
    }
    if AnyConflict(e, p, a, b) {
      var f :| Conflicting(e, p, a, b, f);
      FieldConflictIff(e, p, a, b, f);
    }
  }

  /** The decision in terms of the records and the policy: which fields conflict, and the class by the
      score's place among the thresholds and the presence of a conflict. */
  lemma DecisionMeans(e: Engine, p: Policy, a: Record, b: Record)
    ensures var d := Evaluate(e, p, a, b);
      var s := d.score as real / 100.0;
      var conflict, low := AnyConflict(e, p, a, b), s < p.matched && s < p.possibleMatch;
      && (forall f :: FieldConflict(f) in d.conflicts <==> f in p.criticalFields && Differs(e, p, a, b, f))
      && (d.class_ == Matched <==> !conflict && s >= p.matched)
      && (d.class_ == PossibleMatch <==> !conflict && s >= p.possibleMatch && s < p.matched)
      && (d.class_ == ReviewRequired <==> s >= p.review && (conflict || low))
      && (d.class_ == Unmatched <==> s < p.review && (conflict || low))
  {
    ConflictIff(e, p, a, b);
    forall f ensures FieldConflict(f) in Evaluate(e, p, a, b).conflicts <==> f in p.criticalFields && Differs(e, p, a, b, f) {
      FieldConflictIff(e, p, a, b, f);
    }
  }

  /** A critical field that differs is among the conflicts, and the pair is neither MATCHED nor POSSIBLE_MATCH,
      whatever else agrees. */
  lemma CriticalDifference(e: Engine, p: Policy, a: Record, b: Record, f: Field)
    requires f in p.criticalFields && Differs(e, p, a, b, f)
    ensures FieldConflict(f) in Evaluate(e, p, a, b).conflicts
    ensures Evaluate(e, p, a, b).class_ == ReviewRequired || Evaluate(e, p, a, b).class_ == Unmatched
  {
    assert Conflicting(e, p, a, b, f);
    DecisionMeans(e, p, a, b);
  }

  // ----- the score -----

  ghost function SumOver(w: Field -> real, fields: seq<Field>): real {
    if fields == [] then 0.0 else SumOver(w, fields[..|fields| - 1]) + w(fields[|fields| - 1])
  }

  /** The weight of the field, if both records carry it. */
  ghost function GivenFn(e: Engine, p: Policy, a: Record, b: Record): Field -> real {
    f => if WeightIn(p, f) > 0.0 && InBoth(e, a, b, f) then WeightIn(p, f) else 0.0
  }

  /** The weight of the field, if it is none of the fuzzy ones and the records differ in it. */
  ghost function LostFn(e: Engine, p: Policy, a: Record, b: Record): Field -> real {
    f => if WeightIn(p, f) > 0.0 && !Fuzzy(f) && Differs(e, p, a, b, f) then WeightIn(p, f) else 0.0
  }

  ghost function Given(e: Engine, p: Policy, a: Record, b: Record): real { SumOver(GivenFn(e, p, a, b), FIELDS) }

  ghost function Lost(e: Engine, p: Policy, a: Record, b: Record): real { SumOver(LostFn(e, p, a, b), FIELDS) }

  /** Every weighted fuzzy field that both records carry holds the same normalized text. */
  ghost predicate FuzzyAgree(e: Engine, p: Policy, a: Record, b: Record) {
    forall f :: Fuzzy(f) && WeightIn(p, f) > 0.0 && InBoth(e, a, b, f) ==> !TextsDiffer(e, a, b, f)
  }

  /** What one result adds to the two sums; `lost` is its weight where it is a full difference. */
  lemma OneResult(r: FieldResult, lost: real)
    requires 0.0 <= r.comparison.similarity <= 100.0
    requires lost == 0.0 || (lost == WeightOf(r) && r.comparison.similarity == 0.0)
    ensures 0.0 <= lost <= WeightOf(r) && ContributionOf(r) <= 100.0 * (WeightOf(r) - lost)
    ensures (Scored(r) && lost == 0.0 ==> r.comparison.similarity == 100.0) ==> ContributionOf(r) == 100.0 * (WeightOf(r) - lost)
  {
    if Scored(r) {
      var earned := ContributionOf(r);
      AtMostFull(r.weight, r.comparison.similarity, earned);
      OneShare(r.weight, r.comparison.similarity, earned, lost);
    }
  }

  lemma OneShare(w: real, s: real, earned: real, lost: real)
    requires earned <= 100.0 * w && (s == 100.0 ==> earned == 100.0 * w) && (s == 0.0 ==> earned == 0.0)
    requires lost == 0.0 || (lost == w && s == 0.0)
    ensures earned <= 100.0 * (w - lost)
    ensures (lost == 0.0 ==> s == 100.0) ==> earned == 100.0 * (w - lost)
  {
  }

  lemma FieldSimilarity(e: Engine, p: Policy, a: Record, b: Record, f: Field)
    ensures var c, lost := Compare(e, p, a, b, f), LostFn(e, p, a, b)(f);
      && 0.0 <= c.similarity <= 100.0 && WeightOf(ResultOf(e, p, a, b, f)) == GivenFn(e, p, a, b)(f)
      && (lost == 0.0 || (lost == GivenFn(e, p, a, b)(f) && c.similarity == 0.0))
      && (FuzzyAgree(e, p, a, b) && WeightIn(p, f) > 0.0 && c.status != Missing && lost == 0.0 ==> c.similarity == 100.0)
  {
    ComparisonMeans(e, p, a, b, f);
    if Fuzzy(f) {
      FuzzyMeans(e, p, a, b, f);
    }
  }

  lemma OneField(e: Engine, p: Policy, a: Record, b: Record, f: Field)
    ensures var r := ResultOf(e, p, a, b, f);
      && WeightOf(r) == GivenFn(e, p, a, b)(f) && 0.0 <= LostFn(e, p, a, b)(f) <= WeightOf(r)
      && ContributionOf(r) <= 100.0 * (WeightOf(r) - LostFn(e, p, a, b)(f))
      && (FuzzyAgree(e, p, a, b) ==> ContributionOf(r) == 100.0 * (WeightOf(r) - LostFn(e, p, a, b)(f)))
  {
    FieldSimilarity(e, p, a, b, f);
    OneResult(ResultOf(e, p, a, b, f), LostFn(e, p, a, b)(f));
  }

  lemma AtMostFull(w: real, s: real, earned: real)
    requires w > 0.0 && 0.0 <= s <= 100.0 && earned == w * s
    ensures earned <= 100.0 * w && (s == 100.0 ==> earned == 100.0 * w) && (s == 0.0 ==> earned == 0.0)
  {
    assert w * (100.0 - s) >= 0.0;
  }

  lemma {:induction false} SumsAre(e: Engine, p: Policy, a: Record, b: Record, fields: seq<Field>)
    ensures var rs := Collect(ResultFn(e, p, a, b), fields);
      var given, lost := SumOver(GivenFn(e, p, a, b), fields), SumOver(LostFn(e, p, a, b), fields);
      && TotalWeight(rs) == given && 0.0 <= lost <= given && Weighted(rs) <= 100.0 * (given - lost)
      && (FuzzyAgree(e, p, a, b) ==> Weighted(rs) == 100.0 * (given - lost))
  {
    if fields != [] {
      var front, f := fields[..|fields| - 1], fields[|fields| - 1];
      SumsAre(e, p, a, b, front);
      OneField(e, p, a, b, f);
      AppendSums(Collect(ResultFn(e, p, a, b), front), ResultOf(e, p, a, b, f));
    }
  }

  /** How alike two normalized texts of a fuzzy field are. */
  ghost predicate AlikeBy(e: Engine, p: Policy, a: Record, b: Record, f: Field, s: real) {
    exists x, y :: ValueIs(e, a, f, x) && ValueIs(e, b, f, y) && s == if x == y then 100.0 else Likeness(e, p, f, x, y)
  }

  /** How alike two records are in a field that both carry: 100 or 0, and by likeness in the fuzzy ones. */
  ghost predicate Alike(e: Engine, p: Policy, a: Record, b: Record, f: Field, s: real) {
    if Fuzzy(f) then AlikeBy(e, p, a, b, f, s) else s == if Differs(e, p, a, b, f) then 0.0 else 100.0
  }

  /** `earned` gives each weighted field that both records carry its weight times how alike they are in it. */
  ghost predicate Earns(e: Engine, p: Policy, a: Record, b: Record, f: Field, earned: real) {
    if WeightIn(p, f) > 0.0 && InBoth(e, a, b, f) then exists s :: Alike(e, p, a, b, f, s) && earned == WeightIn(p, f) * s
    else earned == 0.0
  }

  lemma FuzzySimilarity(e: Engine, p: Policy, a: Record, b: Record, f: Field)
    requires Fuzzy(f) && InBoth(e, a, b, f)
    ensures AlikeBy(e, p, a, b, f, Compare(e, p, a, b, f).similarity)
  {
    TextIs(e, a, f);
    TextIs(e, b, f);
    assert ValueIs(e, a, f, TextOf(e, a, f).value) && ValueIs(e, b, f, TextOf(e, b, f).value);
  }

  lemma GivenIs(e: Engine, p: Policy, a: Record, b: Record, f: Field, c: Comparison)
    requires c == Compare(e, p, a, b, f)
    ensures c.status == Missing <==> !InBoth(e, a, b, f)
    ensures InBoth(e, a, b, f) ==> Alike(e, p, a, b, f, c.similarity)
  {
    ComparisonMeans(e, p, a, b, f);
    if InBoth(e, a, b, f) && Fuzzy(f) {
      FuzzySimilarity(e, p, a, b, f);
    }
  }

  lemma ContributionMeans(e: Engine, p: Policy, a: Record, b: Record, f: Field)
    ensures WeightOf(ResultOf(e, p, a, b, f)) == GivenFn(e, p, a, b)(f)
    ensures Earns(e, p, a, b, f, ContributionOf(ResultOf(e, p, a, b, f)))
  {
    var c := Compare(e, p, a, b, f);
    GivenIs(e, p, a, b, f, c);
    ContributionIs(FieldResult(f, WeightIn(p, f), c));
    EarnsIs(e, p, a, b, f, c.similarity, ContributionOf(FieldResult(f, WeightIn(p, f), c)));
  }

  lemma ContributionIs(r: FieldResult)
    ensures ContributionOf(r) == if r.weight > 0.0 && r.comparison.status != Missing then r.weight * r.comparison.similarity else 0.0
  {
  }

  lemma EarnsIs(e: Engine, p: Policy, a: Record, b: Record, f: Field, s: real, earned: real)
    requires InBoth(e, a, b, f) ==> Alike(e, p, a, b, f, s)
    requires earned == if WeightIn(p, f) > 0.0 && InBoth(e, a, b, f) then WeightIn(p, f) * s else 0.0
    ensures Earns(e, p, a, b, f, earned)
  {
  }

  lemma {:induction false} EarnedSums(e: Engine, p: Policy, a: Record, b: Record, earned: Field -> real, fields: seq<Field>)
    requires forall f :: earned(f) == ContributionOf(ResultOf(e, p, a, b, f))
    ensures var rs := Collect(ResultFn(e, p, a, b), fields);
      TotalWeight(rs) == SumOver(GivenFn(e, p, a, b), fields) && Weighted(rs) == SumOver(earned, fields)
  {
    if fields != [] {
      var front, f := fields[..|fields| - 1], fields[|fields| - 1];
      EarnedSums(e, p, a, b, earned, front);
      ContributionMeans(e, p, a, b, f);
      AppendSums(Collect(ResultFn(e, p, a, b), front), ResultOf(e, p, a, b, f));
    }
  }

  /** The score of any two records under any policy: what the fields earn over what they weigh, rounded. */
  lemma ScoreMeans(e: Engine, p: Policy, a: Record, b: Record) returns (earned: Field -> real)
    ensures forall f :: Earns(e, p, a, b, f, earned(f))
    ensures Evaluate(e, p, a, b).score ==
      if Given(e, p, a, b) > 0.0 then Hundredths(SumOver(earned, FIELDS) / Given(e, p, a, b)) else 0
  {
    earned := f => ContributionOf(ResultOf(e, p, a, b, f));
    forall f ensures Earns(e, p, a, b, f, earned(f)) {
      ContributionMeans(e, p, a, b, f);
    }
    EarnedSums(e, p, a, b, earned, FIELDS);
  }

  /** When the fuzzy fields agree, the score is the share of the weights that are not lost to a difference. */
  lemma ScoreIsShare(e: Engine, p: Policy, a: Record, b: Record)
    requires FuzzyAgree(e, p, a, b)
    ensures var given, lost := Given(e, p, a, b), Lost(e, p, a, b);
      Evaluate(e, p, a, b).score == if given > 0.0 then Hundredths(100.0 * (given - lost) / given) else 0
  {
    SumsAre(e, p, a, b, FIELDS);
  }

  /** `round(x, 2)`: at most half a hundredth away, and even in the middle. */
  lemma HundredthsNearest(x: real)
    ensures var n := Hundredths(x) as real - x * 100.0; -0.5 <= n <= 0.5 && (n == 0.5 || n == -0.5 ==> Hundredths(x) % 2 == 0)
  {
  }

  lemma RoundsToFull(given: real, lost: real)
    requires given > 0.0 && 0.0 <= lost <= given
    ensures Hundredths(100.0 * (given - lost) / given) == 10000 <==> 20000.0 * lost <= given
  {
    var x := 100.0 * (given - lost) / given;
    assert x * given == 100.0 * (given - lost);
    AtMost(100.0 * (given - lost), 100.0 * given, given);
    FullQuotient(given);
    FullAbove(x);
    ShareAbove(x, given, lost);
  }

  lemma FullAbove(x: real)
    requires x <= 100.0
    ensures Hundredths(x) == 10000 <==> x >= 99.995
  {
  }

  lemma ShareAbove(x: real, given: real, lost: real)
    requires given > 0.0 && x * given == 100.0 * (given - lost)
    ensures x >= 99.995 <==> 20000.0 * lost <= given
  {
    if x >= 99.995 {
      assert (x - 99.995) * given >= 0.0;
    } else {
      assert (99.995 - x) * given > 0.0;
    }
  }

  lemma AtMost(x: real, y: real, t: real)
    requires t > 0.0 && x <= y
    ensures x / t <= y / t
  {
    assert (y - x) / t >= 0.0;
    assert y / t - x / t == (y - x) / t;
  }

  lemma HundredthsGrows(x: real, y: real)
    requires x <= y
    ensures Hundredths(x) <= Hundredths(y)
  {
    var f, g := (x * 100.0).Floor, (y * 100.0).Floor;
    assert f <= g;
  }

  lemma FullShareIff(e: Engine, p: Policy, a: Record, b: Record)
    requires Given(e, p, a, b) > 0.0
    ensures Evaluate(e, p, a, b).score == 10000 ==> 20000.0 * Lost(e, p, a, b) <= Given(e, p, a, b)
    ensures FuzzyAgree(e, p, a, b) ==>
      (Evaluate(e, p, a, b).score == 10000 <==> 20000.0 * Lost(e, p, a, b) <= Given(e, p, a, b))
  {
    var given, lost := Given(e, p, a, b), Lost(e, p, a, b);
    var rs := Results(e, p, a, b);
    SumsAre(e, p, a, b, FIELDS);
    RoundsToFull(given, lost);
    AtMost(Weighted(rs), 100.0 * (given - lost), given);
    HundredthsGrows(Weighted(rs) / given, 100.0 * (given - lost) / given);
    ScoreInRange(e, p, a, b);
    ShareInRange(given, lost);
  }

  lemma ShareInRange(given: real, lost: real)
    requires given > 0.0 && 0.0 <= lost <= given
    ensures Hundredths(100.0 * (given - lost) / given) <= 10000
  {
    AtMost(100.0 * (given - lost), 100.0 * given, given);
    FullQuotient(given);
    HundredthsGrows(100.0 * (given - lost) / given, 100.0);
    HundredthsOf100();
  }

  lemma {:induction false} PartOfSum(w: Field -> real, fields: seq<Field>, f: Field)
    requires f in fields && forall g :: w(g) >= 0.0
    ensures SumOver(w, fields) >= w(f)
  {
    var front, last := fields[..|fields| - 1], fields[|fields| - 1];
    assert fields == front + [last];
    if f == last {
      SumNotNegative(w, front);
    } else {
      PartOfSum(w, front, f);
    }
  }

  lemma {:induction false} SumNotNegative(w: Field -> real, fields: seq<Field>)
    requires forall g :: w(g) >= 0.0
    ensures SumOver(w, fields) >= 0.0
  {
    if fields != [] {
      SumNotNegative(w, fields[..|fields| - 1]);
    }
  }

  /** The score is 100 only if every weighted field that both records carry and that is not fuzzy agrees, up
      to fields that make up at most 1/20000 of the weights, which rounding hides. */
  lemma FullScoreAgrees(e: Engine, p: Policy, a: Record, b: Record, f: Field)
    requires Evaluate(e, p, a, b).score == 10000 && WeightIn(p, f) > 0.0 && !Fuzzy(f) && Differs(e, p, a, b, f)
    ensures 20000.0 * WeightIn(p, f) <= Given(e, p, a, b)
  {
    SumsAre(e, p, a, b, FIELDS);
    FieldListed(f);
    PartOfSum(LostFn(e, p, a, b), FIELDS, f);
    FullShareIff(e, p, a, b);
  }

  // ----- two decisions, worked out -----

  lemma SumStep(w: Field -> real, k: nat)
    requires k < |FIELDS|
    ensures SumOver(w, FIELDS[..k + 1]) == SumOver(w, FIELDS[..k]) + w(FIELDS[k])
  {
    assert FIELDS[..k + 1][..k] == FIELDS[..k];
  }

  lemma SumOfFirst(w: Field -> real)
    ensures SumOver(w, FIELDS[..8])
      == w(TransactionId) + w(EndToEndId) + w(DebtorAccount) + w(CreditorAccount) + w(DebtorAgent) + w(CreditorAgent)
         + w(CurrencyCode) + w(CountryCode)
  {
    SumStep(w, 0);
    SumStep(w, 1);
    SumStep(w, 2);
    SumStep(w, 3);
    SumStep(w, 4);
    SumStep(w, 5);
    SumStep(w, 6);
    SumStep(w, 7);
  }

  lemma SumOfAll(w: Field -> real)
    ensures SumOver(w, FIELDS)
      == SumOver(w, FIELDS[..8]) + w(AmountField) + w(BookingDate) + w(ValueDate) + w(RemittanceReference)
         + w(ExternalReference) + w(DebtorName) + w(CreditorName)
  {
    SumStep(w, 8);
    SumStep(w, 9);
    SumStep(w, 10);
    SumStep(w, 11);
    SumStep(w, 12);
    SumStep(w, 13);
    SumStep(w, 14);
    assert FIELDS[..15] == FIELDS;
  }

  /** The weights, thresholds and critical fields of the development baseline. */
  const DEFAULT_POLICY := Policy(
    map[TransactionId := 30.0, EndToEndId := 25.0, DebtorAccount := 20.0, CreditorAccount := 20.0, AmountField := 15.0,
        CurrencyCode := 10.0, RemittanceReference := 15.0, ExternalReference := 10.0, DebtorName := 10.0, CreditorName := 10.0,
        BookingDate := 5.0, ValueDate := 5.0, DebtorAgent := 5.0, CreditorAgent := 5.0, CountryCode := 5.0],
    85.0, 60.0, 40.0, map[BookingDate := 3, ValueDate := 3], None,
    {CurrencyCode, AmountField, TransactionId, DebtorAccount, CreditorAccount},
    map[DebtorName := "token_set_ratio", CreditorName := "token_set_ratio",
        RemittanceReference := "token_sort_ratio", ExternalReference := "token_sort_ratio"])

  const THREE: set<Field> := {TransactionId, EndToEndId, CurrencyCode}

  /** Both records carry the field exactly when it is one of the three. */
  predicate CarriedIfOneOfThree(e: Engine, a: Record, b: Record, f: Field) {
    (Present(e, a, f) <==> f in THREE) && (Present(e, b, f) <==> f in THREE)
  }

  ghost predicate CarryThree(e: Engine, a: Record, b: Record) { forall f :: CarriedIfOneOfThree(e, a, b, f) }

  lemma ThreeAreTexts(f: Field)
    ensures f in THREE <==> f.TransactionId? || f.EndToEndId? || f.CurrencyCode?
  {
  }

  lemma FieldWeights(e: Engine, p: Policy, a: Record, b: Record, f: Field)
    requires CarriedIfOneOfThree(e, a, b, f)
    ensures GivenFn(e, p, a, b)(f) == if f in THREE && WeightIn(p, f) > 0.0 then WeightIn(p, f) else 0.0
    ensures LostFn(e, p, a, b)(f) == if f in THREE && WeightIn(p, f) > 0.0 && TextsDiffer(e, a, b, f) then WeightIn(p, f) else 0.0
  {
    ThreeAreTexts(f);
    ComparisonMeans(e, p, a, b, f);
  }

  function OfThree(f: Field, x: real, y: real, z: real): real {
    if f.TransactionId? then x else if f.EndToEndId? then y else if f.CurrencyCode? then z else 0.0
  }

  ghost predicate ThreeOnly(w: Field -> real, x: real, y: real, z: real) { forall f :: w(f) == OfThree(f, x, y, z) }

  lemma ThreeFields(w: Field -> real, x: real, y: real, z: real)
    requires ThreeOnly(w, x, y, z)
    ensures SumOver(w, FIELDS) == x + y + z
  {
    SumOfFirst(w);
    SumOfAll(w);
  }

  /** Three texts are given on both sides, with positive weights, and only the transaction ids differ. */
  ghost predicate OneOfThree(e: Engine, p: Policy, a: Record, b: Record) {
    && CarryThree(e, a, b)
    && WeightIn(p, TransactionId) > 0.0 && WeightIn(p, EndToEndId) > 0.0 && WeightIn(p, CurrencyCode) > 0.0
    && TextsDiffer(e, a, b, TransactionId) && !TextsDiffer(e, a, b, EndToEndId) && !TextsDiffer(e, a, b, CurrencyCode)
  }

  lemma WeightsOfThree(e: Engine, p: Policy, a: Record, b: Record, f: Field)
    requires OneOfThree(e, p, a, b)
    ensures GivenFn(e, p, a, b)(f) == OfThree(f, WeightIn(p, TransactionId), WeightIn(p, EndToEndId), WeightIn(p, CurrencyCode))
    ensures LostFn(e, p, a, b)(f) == OfThree(f, WeightIn(p, TransactionId), 0.0, 0.0)
  {
    assert CarriedIfOneOfThree(e, a, b, f);
    ThreeAreTexts(f);
    FieldWeights(e, p, a, b, f);
  }

  lemma ThreeSums(e: Engine, p: Policy, a: Record, b: Record)
    requires OneOfThree(e, p, a, b)
    ensures Given(e, p, a, b) == WeightIn(p, TransactionId) + WeightIn(p, EndToEndId) + WeightIn(p, CurrencyCode)
    ensures Lost(e, p, a, b) == WeightIn(p, TransactionId)
  {
    ThreeWeights(e, p, a, b);
    ThreeFields(GivenFn(e, p, a, b), WeightIn(p, TransactionId), WeightIn(p, EndToEndId), WeightIn(p, CurrencyCode));
    ThreeFields(LostFn(e, p, a, b), WeightIn(p, TransactionId), 0.0, 0.0);
  }

  lemma ThreeWeights(e: Engine, p: Policy, a: Record, b: Record)
    requires OneOfThree(e, p, a, b)
    ensures ThreeOnly(GivenFn(e, p, a, b), WeightIn(p, TransactionId), WeightIn(p, EndToEndId), WeightIn(p, CurrencyCode))
    ensures ThreeOnly(LostFn(e, p, a, b), WeightIn(p, TransactionId), 0.0, 0.0)
  {
    var x, y, z := WeightIn(p, TransactionId), WeightIn(p, EndToEndId), WeightIn(p, CurrencyCode);
    forall f ensures GivenFn(e, p, a, b)(f) == OfThree(f, x, y, z) && LostFn(e, p, a, b)(f) == OfThree(f, x, 0.0, 0.0) {
      WeightsOfThree(e, p, a, b, f);
    }
  }

  lemma ThreeAgree(e: Engine, p: Policy, a: Record, b: Record)
    requires OneOfThree(e, p, a, b)
    ensures FuzzyAgree(e, p, a, b)
  {
    forall f | Fuzzy(f) ensures !InBoth(e, a, b, f) {
      assert CarriedIfOneOfThree(e, a, b, f);
      ThreeAreTexts(f);
    }
  }

  lemma ThreeScore(e: Engine, p: Policy, a: Record, b: Record)
    requires OneOfThree(e, p, a, b)
    ensures var given := WeightIn(p, TransactionId) + WeightIn(p, EndToEndId) + WeightIn(p, CurrencyCode);
      Evaluate(e, p, a, b).score == Hundredths(100.0 * (given - WeightIn(p, TransactionId)) / given)
  {
    ThreeSums(e, p, a, b);
    ThreeAgree(e, p, a, b);
    ScoreIsShare(e, p, a, b);
  }

  lemma BaselineWeights()
    ensures WeightIn(DEFAULT_POLICY, TransactionId) == 30.0 && WeightIn(DEFAULT_POLICY, EndToEndId) == 25.0
    ensures WeightIn(DEFAULT_POLICY, CurrencyCode) == 10.0 && TransactionId in DEFAULT_POLICY.criticalFields
    ensures DEFAULT_POLICY.review == 40.0
  {
  }

  lemma Share35Of65()
    ensures Hundredths(100.0 * (65.0 - 30.0) / 65.0) == 5385
  {
    assert (100.0 * (65.0 - 30.0) / 65.0 * 100.0).Floor == 5384;
  }

  /** Under the baseline, two records with different transaction ids, and equal end-to-end ids and currencies,
      score 53.85 and go to review for the transaction id. */
  lemma BaselineDifference(e: Engine, a: Record, b: Record)
    requires CarryThree(e, a, b)
    requires TextsDiffer(e, a, b, TransactionId) && !TextsDiffer(e, a, b, EndToEndId) && !TextsDiffer(e, a, b, CurrencyCode)
    ensures var d := Evaluate(e, DEFAULT_POLICY, a, b);
      d.score == 5385 && d.class_ == ReviewRequired && FieldConflict(TransactionId) in d.conflicts
  {
    BaselineWeights();
    ReviewedAt5385(e, DEFAULT_POLICY, a, b);
  }

  lemma ReviewedAt5385(e: Engine, p: Policy, a: Record, b: Record)
    requires OneOfThree(e, p, a, b) && TransactionId in p.criticalFields && p.review == 40.0
    requires WeightIn(p, TransactionId) == 30.0 && WeightIn(p, EndToEndId) == 25.0 && WeightIn(p, CurrencyCode) == 10.0
    ensures var d := Evaluate(e, p, a, b);
      d.score == 5385 && d.class_ == ReviewRequired && FieldConflict(TransactionId) in d.conflicts
  {
    ThreeScore(e, p, a, b);
    Share35Of65();
    CriticalDifference(e, p, a, b, TransactionId);
    DecisionMeans(e, p, a, b);
  }

  /** A difference that rounding hides: one field weighs 20000 and two weigh 1, one of these differs, and
      the score is 100. */
  lemma FullScoreDespiteDifference(e: Engine, p: Policy, a: Record, b: Record)
    requires OneOfThree(e, p, a, b)
    requires WeightIn(p, TransactionId) == 1.0 && WeightIn(p, EndToEndId) == 20000.0 && WeightIn(p, CurrencyCode) == 1.0
    ensures Evaluate(e, p, a, b).score == 10000 && Differs(e, p, a, b, TransactionId)
  {
    ThreeSums(e, p, a, b);
    ThreeAgree(e, p, a, b);
    FullShareIff(e, p, a, b);
  }
}
