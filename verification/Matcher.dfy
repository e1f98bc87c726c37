// Pair evaluation: field comparisons, the weighted score, critical conflicts and the class.
module Matcher {
  import opened Strings

  /** The compared fields, in evaluation order (see FIELDS). */
  datatype Field =
    | TransactionId | EndToEndId | DebtorAccount | CreditorAccount | DebtorAgent | CreditorAgent
    | CurrencyCode | CountryCode | AmountField | BookingDate | ValueDate
    | RemittanceReference | ExternalReference | DebtorName | CreditorName

  const FIELDS: seq<Field> := [
    TransactionId, EndToEndId, DebtorAccount, CreditorAccount, DebtorAgent, CreditorAgent, CurrencyCode, CountryCode,
    AmountField, BookingDate, ValueDate, RemittanceReference, ExternalReference, DebtorName, CreditorName]

  /** A match record: its text fields, its amount, and its dates as day numbers. */
  datatype Record = Record(
    recordId: string, texts: map<Field, string>, amount: Option<real>, bookingDate: Option<int>, valueDate: Option<int>)

  /** Text normalization by field, and the raw fuzzy similarity of an algorithm. */
  datatype Engine = Engine(
    normalize: (Field, string) -> Option<string>, fuzz: (string, string, string) -> real,
    nfkc: string -> string, upper: string -> string)

  datatype Policy = Policy(
    fieldWeights: map<Field, real>, matched: real, possibleMatch: real, review: real,
    dateTolerances: map<Field, int>, amountTolerance: Option<real>, criticalFields: set<Field>,
    fuzzyAlgorithms: map<Field, string>)

  // ----- normalized values -----

  function TextOf(e: Engine, r: Record, f: Field): Option<string> {
    if f in r.texts && r.texts[f] != "" then e.normalize(f, r.texts[f]) else None
  }

  function DayOf(r: Record, f: Field): Option<int> {
    if f.BookingDate? then r.bookingDate else if f.ValueDate? then r.valueDate else None
  }

  predicate Present(e: Engine, r: Record, f: Field) {
    match f
    case AmountField => r.amount.Some?
    case BookingDate => r.bookingDate.Some?
    case ValueDate => r.valueDate.Some?
    case _ => TextOf(e, r, f).Some?
  }

  // ----- field comparisons -----

  datatype Status = Exact | Mismatch | Missing

  /** The result of one field: its status, its similarity, and whether both values are non-empty. */
  datatype Comparison = Comparison(status: Status, similarity: real, nonEmpty: bool)

  datatype FieldResult = FieldResult(field: Field, weight: real, comparison: Comparison)

  const MISSING := Comparison(Missing, 0.0, false)

  function Agreement(equal: bool): Comparison { if equal then Comparison(Exact, 100.0, true) else Comparison(Mismatch, 0.0, true) }

  function ExactResult(a: Option<string>, b: Option<string>): Comparison {
    if a.None? || b.None? then MISSING else Agreement(a == b)
  }

  function Abs(x: real): real { if x < 0.0 then -x else x }

  function Max(x: real, y: real): real { if x < y then y else x }

  predicate WithinTolerance(a: real, b: real, tolerance: real) {
    Abs(a - b) <= Max(Max(Abs(a), Abs(b)), 1.0) * (tolerance / 100.0)
  }

  function AmountResult(a: Option<real>, b: Option<real>, tolerance: Option<real>): Comparison {
    if a.None? || b.None? then MISSING
    else Agreement(a == b || (tolerance.Some? && WithinTolerance(a.value, b.value, tolerance.value)))
  }

  function DateResult(a: Option<int>, b: Option<int>, tolerance: int): Comparison {
    if a.None? || b.None? then MISSING
    else Agreement((if a.value < b.value then b.value - a.value else a.value - b.value) <= tolerance)
  }

  const MAX_FUZZY_LEN := 512

  function Capped(s: string): string { if |s| <= MAX_FUZZY_LEN then s else s[..MAX_FUZZY_LEN] }

  function Algorithm(name: string): string {
    if name == "ratio" || name == "partial_ratio" || name == "token_set_ratio" then name else "token_sort_ratio"
  }

  function Clamp(x: real): (r: real)
    ensures 0.0 <= r <= 100.0
  {
    if x < 0.0 then 0.0 else if x > 100.0 then 100.0 else x
  }

  /** `_sim` */
  function Similarity(e: Engine, a: string, b: string, algorithm: string): (r: real)
    ensures 0.0 <= r <= 100.0
  {
    if a == "" || b == "" then 0.0 else Clamp(e.fuzz(Algorithm(algorithm), Capped(a), Capped(b)))
  }

  function FuzzyResult(e: Engine, a: Option<string>, b: Option<string>, algorithm: string): Comparison {
    if a.None? || b.None? then MISSING
    else if a == b then Comparison(Exact, 100.0, a.value != "")
    else
      var s := Similarity(e, a.value, b.value, algorithm);
      Comparison(if s >= 85.0 then Exact else Mismatch, s, a.value != "" && b.value != "")
  }

  predicate Fuzzy(f: Field) { f.RemittanceReference? || f.ExternalReference? || f.DebtorName? || f.CreditorName? }

  function Get<K, V>(m: map<K, V>, k: K, default: V): V { if k in m then m[k] else default }

  function Compare(e: Engine, p: Policy, a: Record, b: Record, f: Field): (c: Comparison)
    ensures 0.0 <= c.similarity <= 100.0
  {
    match f
    case AmountField => AmountResult(a.amount, b.amount, p.amountTolerance)
    case BookingDate => DateResult(a.bookingDate, b.bookingDate, Get(p.dateTolerances, f, 0))
    case ValueDate => DateResult(a.valueDate, b.valueDate, Get(p.dateTolerances, f, 0))
    case _ =>
      if Fuzzy(f) then FuzzyResult(e, TextOf(e, a, f), TextOf(e, b, f), Get(p.fuzzyAlgorithms, f, "token_sort_ratio"))
      else ExactResult(TextOf(e, a, f), TextOf(e, b, f))
  }

  function WeightIn(p: Policy, f: Field): real { Get(p.fieldWeights, f, 0.0) }

  function ResultOf(e: Engine, p: Policy, a: Record, b: Record, f: Field): FieldResult {
    FieldResult(f, WeightIn(p, f), Compare(e, p, a, b, f))
  }

  function ResultFn(e: Engine, p: Policy, a: Record, b: Record): Field -> FieldResult { f => ResultOf(e, p, a, b, f) }

  /** The results of `result` for each field, in order. */
  function Collect(result: Field -> FieldResult, fields: seq<Field>): seq<FieldResult> {
    if fields == [] then []
    else Collect(result, fields[..|fields| - 1]) + [result(fields[|fields| - 1])]
  }

  function Results(e: Engine, p: Policy, a: Record, b: Record): seq<FieldResult> { Collect(ResultFn(e, p, a, b), FIELDS) }

  // ----- score -----

  /** The field takes part in the score. */
  predicate Scored(r: FieldResult) { r.weight > 0.0 && r.comparison.status != Missing }

  function WeightOf(r: FieldResult): real { if Scored(r) then r.weight else 0.0 }

  function ContributionOf(r: FieldResult): real { if Scored(r) then r.weight * r.comparison.similarity else 0.0 }

  function Weights(rs: seq<FieldResult>): seq<real> {
    if rs == [] then [] else Weights(rs[..|rs| - 1]) + [WeightOf(rs[|rs| - 1])]
  }

  function Contributions(rs: seq<FieldResult>): seq<real> {
    if rs == [] then [] else Contributions(rs[..|rs| - 1]) + [ContributionOf(rs[|rs| - 1])]
  }

  function Sum(xs: seq<real>): real {
    if xs == [] then 0.0 else Sum(xs[..|xs| - 1]) + xs[|xs| - 1]
  }

  function TotalWeight(rs: seq<FieldResult>): real { Sum(Weights(rs)) }

  function Weighted(rs: seq<FieldResult>): real { Sum(Contributions(rs)) }

  /** `round(x, 2)` in hundredths: to the nearest, ties to the even one. */
  function Hundredths(x: real): int {
    var f := (x * 100.0).Floor;
    var d := x * 100.0 - f as real;
    if d < 0.5 || (d == 0.5 && f % 2 == 0) then f else f + 1
  }

  /** The score in hundredths. */
  function Score(rs: seq<FieldResult>): int {
    if TotalWeight(rs) <= 0.0 then 0 else Hundredths(Weighted(rs) / TotalWeight(rs))
  }

  // ----- conflicts and class -----

  datatype Conflict = FieldConflict(field: Field) | NameConflict(field: Field)

  const NAME_MISMATCH_THRESHOLD := 70.0

  function ConflictsOf(r: FieldResult, critical: set<Field>): seq<Conflict> {
    (if r.field in critical && r.comparison.status == Mismatch then [FieldConflict(r.field)] else [])
    + if (r.field.DebtorName? || r.field.CreditorName?) && r.comparison.status == Mismatch
         && r.comparison.similarity < NAME_MISMATCH_THRESHOLD && r.comparison.nonEmpty
      then [NameConflict(r.field)] else []
  }

  function Conflicts(rs: seq<FieldResult>, critical: set<Field>): seq<Conflict> {
    if rs == [] then [] else Conflicts(rs[..|rs| - 1], critical) + ConflictsOf(rs[|rs| - 1], critical)
  }

  datatype Class = Matched | PossibleMatch | ReviewRequired | Unmatched | DuplicateCandidate

  function Classify(score: int, conflicts: seq<Conflict>, p: Policy): Class {
    var s := score as real / 100.0;
    if conflicts != [] then if s >= p.review then ReviewRequired else Unmatched
    else if s >= p.matched then Matched
    else if s >= p.possibleMatch then PossibleMatch
    else if s >= p.review then ReviewRequired
    else Unmatched
  }

  datatype Decision = Decision(class_: Class, score: int, conflicts: seq<Conflict>)

  function Evaluate(e: Engine, p: Policy, a: Record, b: Record): Decision {
    var rs := Results(e, p, a, b);
    Decision(Classify(Score(rs), Conflicts(rs, p.criticalFields), p), Score(rs), Conflicts(rs, p.criticalFields))
  }

  // ----- the evaluator -----

  /** `_critical_conflicts` */
  method CriticalConflicts(rs: seq<FieldResult>, critical: set<Field>) returns (conflicts: seq<Conflict>)
    ensures conflicts == Conflicts(rs, critical)
  {
    conflicts := [];
    for i := 0 to |rs|
      invariant conflicts == Conflicts(rs[..i], critical)
    {
      var r := rs[i];
      assert rs[..i + 1][..i] == rs[..i];
      ghost var before := conflicts;
      if r.field in critical && r.comparison.status == Mismatch {
        conflicts := conflicts + [FieldConflict(r.field)];
      }
      if (r.field.DebtorName? || r.field.CreditorName?) && r.comparison.status == Mismatch {
        if r.comparison.similarity < NAME_MISMATCH_THRESHOLD && r.comparison.nonEmpty {
          conflicts := conflicts + [NameConflict(r.field)];
        }
      }
      assert conflicts == before + ConflictsOf(r, critical);
    }
    assert rs[..|rs|] == rs;
  }

  /** `_score` */
  method ComputeScore(rs: seq<FieldResult>) returns (score: int)
    ensures score == Score(rs)
  {
    var total, weighted := 0.0, 0.0;
    for i := 0 to |rs|
      invariant total == TotalWeight(rs[..i]) && weighted == Weighted(rs[..i])
    {
      assert rs[..i + 1] == rs[..i] + [rs[i]];
      AppendSums(rs[..i], rs[i]);
      if rs[i].weight <= 0.0 || rs[i].comparison.status == Missing {
        continue;
      }
      total := total + rs[i].weight;
      weighted := weighted + rs[i].weight * rs[i].comparison.similarity;
    }
    assert rs[..|rs|] == rs;
    if total <= 0.0 {
      return 0;
    }
    score := Hundredths(weighted / total);
  }

  /** `evaluate_pair` */
  method EvaluatePair(e: Engine, p: Policy, a: Record, b: Record) returns (decision: Decision)
    ensures decision == Evaluate(e, p, a, b)
  {
    var rs: seq<FieldResult> := [];
    for i := 0 to |FIELDS|
      invariant rs == Collect(ResultFn(e, p, a, b), FIELDS[..i])
    {
      assert FIELDS[..i + 1][..i] == FIELDS[..i];
      rs := rs + [ResultOf(e, p, a, b, FIELDS[i])];
    }
    assert FIELDS[..|FIELDS|] == FIELDS;
    var conflicts := CriticalConflicts(rs, p.criticalFields);
    var score := ComputeScore(rs);
    decision := Decision(Classify(score, conflicts, p), score, conflicts);
  }

  // ----- the score lies in 0..100 -----

  predicate InRange(rs: seq<FieldResult>) {
    forall i :: 0 <= i < |rs| ==> 0.0 <= rs[i].comparison.similarity <= 100.0
  }

  lemma {:induction false} CollectInRange(result: Field -> FieldResult, fields: seq<Field>)
    requires forall f :: 0.0 <= result(f).comparison.similarity <= 100.0
    ensures InRange(Collect(result, fields))
  {
    if fields != [] {
      CollectInRange(result, fields[..|fields| - 1]);
    }
  }

  lemma AddBounded(t: real, x: real, w: real, s: real)
    requires 0.0 <= t && 0.0 <= x <= 100.0 * t && w > 0.0 && 0.0 <= s <= 100.0
    ensures 0.0 <= x + w * s <= 100.0 * (t + w)
  {
    assert 0.0 <= w * s && w * (100.0 - s) >= 0.0;
  }

  lemma {:induction false} WeightedBounded(rs: seq<FieldResult>)
    requires InRange(rs)
    ensures 0.0 <= TotalWeight(rs) && 0.0 <= Weighted(rs) <= 100.0 * TotalWeight(rs)
  {
    if rs != [] {
      var front, last := rs[..|rs| - 1], rs[|rs| - 1];
      WeightedBounded(front);
      AppendSums(front, last);
      assert rs == front + [last];
      if Scored(last) {
        AddBounded(TotalWeight(front), Weighted(front), last.weight, last.comparison.similarity);
      }
    }
  }

  lemma QuotientBounded(x: real, t: real)
    requires t > 0.0 && 0.0 <= x <= 100.0 * t
    ensures 0.0 <= x / t <= 100.0
  {
    assert x / t * t == x;
  }

  lemma HundredthsBounded(x: real)
    requires 0.0 <= x <= 100.0
    ensures 0 <= Hundredths(x) <= 10000
  {
  }

  /** Every score lies in 0..100, for all records, weights and similarity functions. */
  lemma ScoreInRange(e: Engine, p: Policy, a: Record, b: Record)
    ensures 0 <= Evaluate(e, p, a, b).score <= 10000
  {
    var rs := Results(e, p, a, b);
    CollectInRange(ResultFn(e, p, a, b), FIELDS);
    WeightedBounded(rs);
    if TotalWeight(rs) > 0.0 {
      QuotientBounded(Weighted(rs), TotalWeight(rs));
      HundredthsBounded(Weighted(rs) / TotalWeight(rs));
    }
  }

  // ----- only the proportions of the weights matter -----

  function Scaled(p: Policy, k: real): Policy {
    p.(fieldWeights := map f | f in p.fieldWeights :: k * p.fieldWeights[f])
  }

  lemma ScaledScored(w: real, k: real)
    requires k > 0.0
    ensures k * w > 0.0 <==> w > 0.0
  {
  }

  lemma ScaledProduct(w: real, k: real, s: real)
    ensures k * w * s == k * (w * s)
  {
  }

  lemma ScaledContribution(r: FieldResult, r': FieldResult, k: real)
    requires k > 0.0 && ScaledResultIs(r, r', k)
    ensures ContributionOf(r') == k * ContributionOf(r)
  {
    ScaledScored(r.weight, k);
    ScaledProduct(r.weight, k, r.comparison.similarity);
  }

  /** Each number of `ys` is `k` times the one of `xs`. */
  predicate Proportional(xs: seq<real>, ys: seq<real>, k: real) {
    if xs == [] then ys == []
    else ys != [] && Proportional(xs[..|xs| - 1], ys[..|ys| - 1], k) && ys[|ys| - 1] == k * xs[|xs| - 1]
  }

  lemma ScaledSum(k: real, t: real, w: real, t2: real, t': real, w': real, t2': real)
    requires t2 == t + w && t' == k * t && w' == k * w && t2' == t' + w'
    ensures t2' == k * t2
  {
  }

  lemma {:induction false} ProportionalSums(xs: seq<real>, ys: seq<real>, k: real)
    requires Proportional(xs, ys, k)
    ensures Sum(ys) == k * Sum(xs)
  {
    if xs != [] {
      var front, front' := xs[..|xs| - 1], ys[..|ys| - 1];
      ProportionalSums(front, front', k);
      ScaledSum(k, Sum(front), xs[|xs| - 1], Sum(xs), Sum(front'), ys[|ys| - 1], Sum(ys));
    }
  }

  /** `q` is `p` under `k` times its weights. */
  ghost predicate ScaledPolicy(p: Policy, q: Policy, k: real) {
    q == p.(fieldWeights := q.fieldWeights) && forall f :: WeightIn(q, f) == k * WeightIn(p, f)
  }

  lemma ScaledIs(p: Policy, k: real)
    ensures ScaledPolicy(p, Scaled(p, k), k)
  {
  }

  lemma ScaledResultOf(e: Engine, p: Policy, q: Policy, a: Record, b: Record, f: Field, k: real)
    requires q == p.(fieldWeights := q.fieldWeights) && WeightIn(q, f) == k * WeightIn(p, f)
    ensures ScaledResultIs(ResultOf(e, p, a, b, f), ResultOf(e, q, a, b, f), k)
  {
  }

  predicate ScaledResultIs(r: FieldResult, r': FieldResult, k: real) { r' == r.(weight := k * r.weight) }

  lemma ProportionalAppend(xs: seq<real>, ys: seq<real>, k: real, x: real, y: real)
    requires Proportional(xs, ys, k) && y == k * x
    ensures Proportional(xs + [x], ys + [y], k)
  {
    assert (xs + [x])[..|xs|] == xs && (ys + [y])[..|ys|] == ys;
  }

  /** The same comparisons under `k` times the weights. */
  predicate ScaledLists(rs: seq<FieldResult>, rs': seq<FieldResult>, k: real) {
    if rs == [] then rs' == []
    else
      && rs' != [] && ScaledLists(rs[..|rs| - 1], rs'[..|rs'| - 1], k)
      && ScaledResultIs(rs[|rs| - 1], rs'[|rs'| - 1], k)
  }

  lemma {:induction false} ScaledCollect(result: Field -> FieldResult, result': Field -> FieldResult, fields: seq<Field>, k: real)
    requires forall f :: ScaledResultIs(result(f), result'(f), k)
    ensures ScaledLists(Collect(result, fields), Collect(result', fields), k)
  {
    if fields != [] {
      var front, f := fields[..|fields| - 1], fields[|fields| - 1];
      ScaledCollect(result, result', front, k);
      ScaledListsAppend(Collect(result, front), result(f), Collect(result', front), result'(f), k);
    }
  }

  lemma ScaledListsAppend(rs: seq<FieldResult>, r: FieldResult, rs': seq<FieldResult>, r': FieldResult, k: real)
    requires ScaledLists(rs, rs', k) && ScaledResultIs(r, r', k)
    ensures ScaledLists(rs + [r], rs' + [r'], k)
  {
    assert (rs + [r])[..|rs|] == rs && (rs' + [r'])[..|rs'|] == rs';
  }

  lemma {:induction false} WeightsProportional(rs: seq<FieldResult>, rs': seq<FieldResult>, k: real)
    requires k > 0.0 && ScaledLists(rs, rs', k)
    ensures Proportional(Weights(rs), Weights(rs'), k)
  {
    if rs != [] {
      var r, r' := rs[|rs| - 1], rs'[|rs'| - 1];
      WeightsProportional(rs[..|rs| - 1], rs'[..|rs'| - 1], k);
      ScaledScored(r.weight, k);
      ProportionalAppend(Weights(rs[..|rs| - 1]), Weights(rs'[..|rs'| - 1]), k, WeightOf(r), WeightOf(r'));
    }
  }

  lemma {:induction false} ContributionsProportional(rs: seq<FieldResult>, rs': seq<FieldResult>, k: real)
    requires k > 0.0 && ScaledLists(rs, rs', k)
    ensures Proportional(Contributions(rs), Contributions(rs'), k)
  {
    if rs != [] {
      var r, r' := rs[|rs| - 1], rs'[|rs'| - 1];
      ContributionsProportional(rs[..|rs| - 1], rs'[..|rs'| - 1], k);
      ScaledContribution(r, r', k);
      ProportionalAppend(Contributions(rs[..|rs| - 1]), Contributions(rs'[..|rs'| - 1]), k,
                         ContributionOf(r), ContributionOf(r'));
    }
  }

  lemma {:induction false} ScaledConflicts(rs: seq<FieldResult>, rs': seq<FieldResult>, k: real, c: set<Field>)
    requires ScaledLists(rs, rs', k)
    ensures Conflicts(rs', c) == Conflicts(rs, c)
  {
    if rs != [] {
      ScaledConflicts(rs[..|rs| - 1], rs'[..|rs'| - 1], k, c);
    }
  }

  lemma AppendSums(rs: seq<FieldResult>, r: FieldResult)
    ensures TotalWeight(rs + [r]) == TotalWeight(rs) + WeightOf(r)
    ensures Weighted(rs + [r]) == Weighted(rs) + ContributionOf(r)
  {
    assert (rs + [r])[..|rs + [r]| - 1] == rs;
  }

  lemma AppendConflicts(rs: seq<FieldResult>, r: FieldResult, critical: set<Field>)
    ensures Conflicts(rs + [r], critical) == Conflicts(rs, critical) + ConflictsOf(r, critical)
  {
    assert (rs + [r])[..|rs + [r]| - 1] == rs;
  }

  lemma SameQuotient(x: real, t: real, k: real, x': real, t': real)
    requires k > 0.0 && t > 0.0 && x' == k * x && t' == k * t
    ensures t' > 0.0 && x' / t' == x / t
  {
    assert x == (x / t) * t;
    assert x' == (x / t) * t';
  }

  /** Scaling all weights by the same positive factor changes no decision. */
  lemma ScaleInvariant(e: Engine, p: Policy, a: Record, b: Record, k: real)
    requires k > 0.0
    ensures Evaluate(e, Scaled(p, k), a, b) == Evaluate(e, p, a, b)
  {
    var rs, rs' := Results(e, p, a, b), Results(e, Scaled(p, k), a, b);
    ScaledIs(p, k);
    forall f ensures ScaledResultIs(ResultFn(e, p, a, b)(f), ResultFn(e, Scaled(p, k), a, b)(f), k) {
      ScaledResultOf(e, p, Scaled(p, k), a, b, f, k);
    }
    ScaledCollect(ResultFn(e, p, a, b), ResultFn(e, Scaled(p, k), a, b), FIELDS, k);
    WeightsProportional(rs, rs', k);
    ContributionsProportional(rs, rs', k);
    SameScore(rs, rs', k);
    ScaledConflicts(rs, rs', k, p.criticalFields);
  }

  lemma SameRatio(t: real, w: real, t': real, w': real, k: real)
    requires k > 0.0 && t' == k * t && w' == k * w
    ensures t' > 0.0 <==> t > 0.0
    ensures t > 0.0 ==> w' / t' == w / t
  {
    ScaledScored(t, k);
    if t > 0.0 {
      SameQuotient(w, t, k, w', t');
    }
  }

  lemma SameScore(rs: seq<FieldResult>, rs': seq<FieldResult>, k: real)
    requires k > 0.0
    requires Proportional(Weights(rs), Weights(rs'), k) && Proportional(Contributions(rs), Contributions(rs'), k)
    ensures Score(rs') == Score(rs)
  {
    ProportionalSums(Weights(rs), Weights(rs'), k);
    ProportionalSums(Contributions(rs), Contributions(rs'), k);
    SameRatio(TotalWeight(rs), Weighted(rs), TotalWeight(rs'), Weighted(rs'), k);
  }

  // ----- swapping the records -----

  ghost predicate SymmetricFuzz(e: Engine) {
    forall n, x, y :: e.fuzz(n, x, y) == e.fuzz(n, y, x)
  }

  lemma AmountSwapped(a: Option<real>, b: Option<real>, tolerance: Option<real>)
    ensures AmountResult(a, b, tolerance) == AmountResult(b, a, tolerance)
  {
    if a.Some? && b.Some? {
      assert Abs(a.value - b.value) == Abs(b.value - a.value);
      assert Max(Abs(a.value), Abs(b.value)) == Max(Abs(b.value), Abs(a.value));
    }
  }

  lemma FuzzySwapped(e: Engine, a: Option<string>, b: Option<string>, algorithm: string)
    requires SymmetricFuzz(e)
    ensures FuzzyResult(e, a, b, algorithm) == FuzzyResult(e, b, a, algorithm)
  {
  }

  lemma CompareSwapped(e: Engine, p: Policy, a: Record, b: Record, f: Field)
    requires SymmetricFuzz(e)
    ensures Compare(e, p, a, b, f) == Compare(e, p, b, a, f)
  {
    if f.AmountField? {
      AmountSwapped(a.amount, b.amount, p.amountTolerance);
    } else if Fuzzy(f) {
      FuzzySwapped(e, TextOf(e, a, f), TextOf(e, b, f), Get(p.fuzzyAlgorithms, f, "token_sort_ratio"));
    }
  }

  lemma {:induction false} SameCollect(result: Field -> FieldResult, result': Field -> FieldResult, fields: seq<Field>)
    requires forall f :: result(f) == result'(f)
    ensures Collect(result, fields) == Collect(result', fields)
  {
    if fields != [] {
      SameCollect(result, result', fields[..|fields| - 1]);
    }
  }

  /** With a symmetric similarity, score, conflicts and class do not depend on the order of the pair. */
  lemma SwapInvariant(e: Engine, p: Policy, a: Record, b: Record)
    requires SymmetricFuzz(e)
    ensures Evaluate(e, p, a, b) == Evaluate(e, p, b, a)
  {
    forall f ensures ResultFn(e, p, a, b)(f) == ResultFn(e, p, b, a)(f) {
      CompareSwapped(e, p, a, b, f);
    }
    SameCollect(ResultFn(e, p, a, b), ResultFn(e, p, b, a), FIELDS);
  }

  // ----- a record against its twin -----

  /** The same record under another id. */
  predicate Twins(a: Record, b: Record) { b == a.(recordId := b.recordId) }

  /** A date compared under a negative tolerance differs even from itself. */
  predicate NeverAgrees(p: Policy, f: Field) {
    (f.BookingDate? || f.ValueDate?) && Get(p.dateTolerances, f, 0) < 0
  }

  predicate DatesAgree(e: Engine, p: Policy, a: Record) {
    forall f :: Present(e, a, f) ==> !NeverAgrees(p, f)
  }

  /** Exactly how a record compares with its twin, field by field. */
  lemma CompareTwins(e: Engine, p: Policy, a: Record, b: Record, f: Field)
    requires Twins(a, b)
    ensures var c := Compare(e, p, a, b, f);
      && (c.status == Missing <==> !Present(e, a, f))
      && (c.status == Mismatch <==> Present(e, a, f) && NeverAgrees(p, f))
      && (c.status == Exact ==> c.similarity == 100.0)
  {
  }

  /** No field mismatches, and what is exact is fully similar. */
  predicate Harmless(r: FieldResult) {
    r.comparison.status == Missing || (r.comparison.status == Exact && r.comparison.similarity == 100.0)
  }

  lemma {:induction false} TwinSums(result: Field -> FieldResult, fields: seq<Field>, critical: set<Field>)
    requires forall f :: Harmless(result(f))
    ensures var rs := Collect(result, fields);
      && 0.0 <= TotalWeight(rs) && Weighted(rs) == 100.0 * TotalWeight(rs) && Conflicts(rs, critical) == []
  {
    if fields != [] {
      var front, f := fields[..|fields| - 1], fields[|fields| - 1];
      TwinSums(result, front, critical);
      var rs, r := Collect(result, front), result(f);
      AppendSums(rs, r);
      AppendConflicts(rs, r, critical);
      TwinContribution(r);
    }
  }

  lemma TwinContribution(r: FieldResult)
    requires Harmless(r)
    ensures WeightOf(r) >= 0.0 && ContributionOf(r) == 100.0 * WeightOf(r)
  {
  }

  lemma {:induction false} PositiveTotal(result: Field -> FieldResult, fields: seq<Field>, f: Field)
    requires f in fields && WeightOf(result(f)) > 0.0
    ensures TotalWeight(Collect(result, fields)) > 0.0
  {
    var front, last := fields[..|fields| - 1], fields[|fields| - 1];
    AppendSums(Collect(result, front), result(last));
    if last != f {
      PositiveTotal(result, front, f);
    } else {
      TotalNotNegative(Collect(result, front));
    }
  }

  lemma {:induction false} TotalNotNegative(rs: seq<FieldResult>)
    ensures TotalWeight(rs) >= 0.0
  {
    if rs != [] {
      TotalNotNegative(rs[..|rs| - 1]);
    }
  }

  lemma HundredthsOf100()
    ensures Hundredths(100.0) == 10000
  {
  }

  lemma FieldListed(f: Field)
    ensures f in FIELDS
  {
    assert FIELDS[0] == TransactionId && FIELDS[1] == EndToEndId && FIELDS[2] == DebtorAccount;
    assert FIELDS[3] == CreditorAccount && FIELDS[4] == DebtorAgent && FIELDS[5] == CreditorAgent;
    assert FIELDS[6] == CurrencyCode && FIELDS[7] == CountryCode && FIELDS[8] == AmountField;
    assert FIELDS[9] == BookingDate && FIELDS[10] == ValueDate && FIELDS[11] == RemittanceReference;
    assert FIELDS[12] == ExternalReference && FIELDS[13] == DebtorName && FIELDS[14] == CreditorName;
  }

  lemma HarmlessScores100(e: Engine, p: Policy, a: Record, b: Record, f: Field)
    requires forall g :: Harmless(ResultOf(e, p, a, b, g))
    requires Compare(e, p, a, b, f).status == Exact && WeightIn(p, f) > 0.0
    ensures Evaluate(e, p, a, b).score == 10000 && Evaluate(e, p, a, b).conflicts == []
  {
    var result := ResultFn(e, p, a, b);
    FieldListed(f);
    TwinSums(result, FIELDS, p.criticalFields);
    PositiveTotal(result, FIELDS, f);
    FullScore(Collect(result, FIELDS));
  }

  /** A record and its twin score 100 without conflict as soon as one positively weighted field is
      present after normalization. */
  lemma TwinsScore100(e: Engine, p: Policy, a: Record, b: Record, f: Field)
    requires Twins(a, b) && DatesAgree(e, p, a) && Present(e, a, f) && WeightIn(p, f) > 0.0
    ensures Evaluate(e, p, a, b).score == 10000 && Evaluate(e, p, a, b).conflicts == []
  {
    forall g ensures Harmless(ResultOf(e, p, a, b, g)) {
      CompareTwins(e, p, a, b, g);
    }
    CompareTwins(e, p, a, b, f);
    HarmlessScores100(e, p, a, b, f);
  }

  // ----- records that agree wherever both carry data -----

  function Text(r: Record, f: Field): string { if f in r.texts then r.texts[f] else "" }

  predicate SameWhereGiven<T(==)>(x: Option<T>, y: Option<T>) { x.None? || y.None? || x == y }

  /** No value that both records carry differs; either one may lack any value. */
  ghost predicate Compatible(a: Record, b: Record) {
    && (forall f: Field :: Text(a, f) == "" || Text(b, f) == "" || Text(a, f) == Text(b, f))
    && SameWhereGiven(a.amount, b.amount)
    && SameWhereGiven(a.bookingDate, b.bookingDate) && SameWhereGiven(a.valueDate, b.valueDate)
  }

  ghost predicate SharedDatesAgree(e: Engine, p: Policy, a: Record, b: Record) {
    forall f :: Present(e, a, f) && Present(e, b, f) ==> !NeverAgrees(p, f)
  }

  lemma SharedText(e: Engine, a: Record, b: Record, g: Field)
    requires Compatible(a, b)
    ensures TextOf(e, a, g).None? || TextOf(e, b, g).None? || TextOf(e, a, g) == TextOf(e, b, g)
  {
    assert Text(a, g) == "" || Text(b, g) == "" || Text(a, g) == Text(b, g);
  }

  lemma CompareCompatible(e: Engine, p: Policy, a: Record, b: Record, g: Field)
    requires Compatible(a, b) && SharedDatesAgree(e, p, a, b)
    ensures Harmless(ResultOf(e, p, a, b, g))
    ensures Present(e, a, g) && Present(e, b, g) ==> Compare(e, p, a, b, g).status == Exact
  {
    SharedText(e, a, b, g);
    assert Present(e, a, g) && Present(e, b, g) ==> !NeverAgrees(p, g);
  }

  /** Missing data costs nothing in the evaluation, on either side: such a pair scores 100 without conflict
      as soon as one positively weighted field is present in both. */
  lemma CompatibleScores100(e: Engine, p: Policy, a: Record, b: Record, f: Field)
    requires Compatible(a, b) && SharedDatesAgree(e, p, a, b)
    requires Present(e, a, f) && Present(e, b, f) && WeightIn(p, f) > 0.0
    ensures Evaluate(e, p, a, b).score == 10000 && Evaluate(e, p, a, b).conflicts == []
  {
    forall g ensures Harmless(ResultOf(e, p, a, b, g)) {
      CompareCompatible(e, p, a, b, g);
    }
    CompareCompatible(e, p, a, b, f);
    HarmlessScores100(e, p, a, b, f);
  }

  /** `b` is a twin of `a` that lacks the text fields `dropped`. */
  predicate Lacks(a: Record, b: Record, dropped: set<Field>) {
    b == a.(recordId := b.recordId, texts := a.texts - dropped)
  }

  lemma LackingTexts(a: Record, b: Record, dropped: set<Field>, f: Field)
    requires Lacks(a, b, dropped)
    ensures Text(b, f) == if f in dropped then "" else Text(a, f)
  {
  }

  lemma LackingCompatible(a: Record, b: Record, dropped: set<Field>)
    requires Lacks(a, b, dropped)
    ensures Compatible(a, b) && Compatible(b, a)
  {
    forall f: Field ensures Text(b, f) == "" || Text(a, f) == Text(b, f) {
      LackingTexts(a, b, dropped, f);
    }
  }

  lemma FullScore(rs: seq<FieldResult>)
    requires TotalWeight(rs) > 0.0 && Weighted(rs) == 100.0 * TotalWeight(rs)
    ensures Score(rs) == 10000
  {
    FullQuotient(TotalWeight(rs));
    HundredthsOf100();
  }

  lemma FullQuotient(t: real)
    requires t > 0.0
    ensures 100.0 * t / t == 100.0
  {
  }
}
