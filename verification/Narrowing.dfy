// Candidate narrowing: the criteria built from a record, the filter that applies them, and how both
// agree with the evaluator.
module Narrowing {
  import opened Strings
  import opened Matcher

  const DEFAULT_MAX_CANDIDATES: nat := 20
  const DEFAULT_DATE_WINDOW_DAYS := 7
  const DEFAULT_AMOUNT_PCT := 20.0

  datatype Criteria = Criteria(
    currency: string, amountWindow: Option<(real, real)>, windowDays: int, dateFields: seq<(Field, int)>,
    referencePrefix: string, account: string)

  // ----- normalization used by the criteria -----

  function Without(s: string, dropped: set<char>): string {
    if s == "" then "" else (if s[0] in dropped then "" else [s[0]]) + Without(s[1..], dropped)
  }

  /** `normalize_reference`; blank when there is nothing left */
  function Reference(e: Engine, s: string): string { e.upper(Without(e.nfkc(s), {' ', '-', '.', '#'})) }

  function Prefix(s: string): string { if |s| <= 8 then s else s[..8] }

  function AccountKey(e: Engine, s: string): string { e.upper(Without(s, {' ', '-'})) }

  /** `r.f or r.g` */
  function Either(r: Record, f: Field, g: Field): string { if Text(r, f) != "" then Text(r, f) else Text(r, g) }

  // ----- the criteria -----

  function Tolerance(p: Policy): real { if p.amountTolerance.Some? then p.amountTolerance.value else DEFAULT_AMOUNT_PCT }

  function AmountWindow(r: Record, p: Policy): Option<(real, real)> {
    if r.amount.None? || Tolerance(p) == 0.0 then None
    else Some(WindowAround(r.amount.value, Tolerance(p) / 100.0))
  }

  function WindowAround(amount: real, pct: real): (real, real) { (amount - amount * pct, amount + amount * pct) }

  function DateFields(r: Record): seq<(Field, int)> {
    (if r.bookingDate.Some? then [(BookingDate, r.bookingDate.value)] else [])
    + if r.valueDate.Some? then [(ValueDate, r.valueDate.value)] else []
  }

  function ReferencePrefix(e: Engine, r: Record): string {
    var ref := Either(r, RemittanceReference, ExternalReference);
    if ref == "" then "" else Prefix(Reference(e, ref))
  }

  function CriteriaOf(e: Engine, r: Record, p: Policy): Criteria {
    Criteria(Text(r, CurrencyCode), AmountWindow(r, p), DEFAULT_DATE_WINDOW_DAYS, DateFields(r), ReferencePrefix(e, r),
             Either(r, DebtorAccount, CreditorAccount))
  }

  /** `narrowing_criteria` */
  method NarrowingCriteria(e: Engine, r: Record, p: Policy) returns (crit: Criteria)
    ensures crit == CriteriaOf(e, r, p)
  {
    crit := Criteria("", None, DEFAULT_DATE_WINDOW_DAYS, [], "", "");
    if Text(r, CurrencyCode) != "" {
      crit := crit.(currency := Text(r, CurrencyCode));
    }
    if r.amount.Some? {
      var amount := r.amount.value;
      var tolerance := Tolerance(p);
      if tolerance != 0.0 {
        var pct := tolerance / 100.0;
        crit := crit.(amountWindow := Some(WindowAround(amount, pct)));
      }
    }
    var dateFields: seq<(Field, int)> := [];
    if r.bookingDate.Some? {
      dateFields := dateFields + [(BookingDate, r.bookingDate.value)];
    }
    if r.valueDate.Some? {
      dateFields := dateFields + [(ValueDate, r.valueDate.value)];
    }
    assert dateFields == DateFields(r);
    crit := crit.(dateFields := dateFields);
    var ref := Either(r, RemittanceReference, ExternalReference);
    if ref != "" {
      crit := crit.(referencePrefix := Prefix(Reference(e, ref)));
    }
    crit := crit.(account := Either(r, DebtorAccount, CreditorAccount));
  }

  // ----- the filter -----

  predicate Near(cd: Option<int>, day: int, window: int) {
    cd.Some? && (if cd.value < day then day - cd.value else cd.value - day) <= window
  }

  /** One of the dates lies within the window. */
  predicate AnyNear(cand: Record, dateFields: seq<(Field, int)>, window: int) {
    exists i :: 0 <= i < |dateFields| && Near(DayOf(cand, dateFields[i].0), dateFields[i].1, window)
  }

  predicate CurrencyFits(cand: Record, crit: Criteria) {
    crit.currency == "" || Text(cand, CurrencyCode) == "" || Text(cand, CurrencyCode) == crit.currency
  }

  predicate AmountFits(cand: Record, crit: Criteria) {
    crit.amountWindow.None? || cand.amount.None?
    || crit.amountWindow.value.0 <= cand.amount.value <= crit.amountWindow.value.1
  }

  predicate DatesFit(cand: Record, crit: Criteria) {
    crit.dateFields == [] || (cand.bookingDate.None? && cand.valueDate.None?)
    || AnyNear(cand, crit.dateFields, crit.windowDays)
  }

  predicate ReferenceFits(e: Engine, cand: Record, crit: Criteria) {
    crit.referencePrefix == ""
    || (var ref := Reference(e, Either(cand, RemittanceReference, ExternalReference));
        ref != "" && Prefix(ref) == crit.referencePrefix)
  }

  predicate AccountFits(e: Engine, cand: Record, crit: Criteria) {
    crit.account == "" || AccountKey(e, Either(cand, DebtorAccount, CreditorAccount)) == AccountKey(e, crit.account)
  }

  predicate Passes(e: Engine, cand: Record, crit: Criteria) {
    CurrencyFits(cand, crit) && AmountFits(cand, crit) && DatesFit(cand, crit)
    && ReferenceFits(e, cand, crit) && AccountFits(e, cand, crit)
  }

  /** `_candidate_matches` */
  method CandidateMatches(e: Engine, cand: Record, crit: Criteria) returns (fits: bool)
    ensures fits <==> Passes(e, cand, crit)
  {
    if crit.currency != "" && Text(cand, CurrencyCode) != "" && Text(cand, CurrencyCode) != crit.currency {
      return false;
    }
    if crit.amountWindow.Some? && cand.amount.Some? {
      if !(crit.amountWindow.value.0 <= cand.amount.value <= crit.amountWindow.value.1) {
        return false;
      }
    }
    if crit.dateFields != [] && !(cand.valueDate.None? && cand.bookingDate.None?) {
      var within := false;
      for i := 0 to |crit.dateFields|
        invariant !within
        invariant forall k :: 0 <= k < i ==> !Near(DayOf(cand, crit.dateFields[k].0), crit.dateFields[k].1, crit.windowDays)
      {
        if Near(DayOf(cand, crit.dateFields[i].0), crit.dateFields[i].1, crit.windowDays) {
          within := true;
          break;
        }
      }
      if !within {
        return false;
      }
    }
    if crit.referencePrefix != "" {
      var ref := Reference(e, Either(cand, RemittanceReference, ExternalReference));
      if ref == "" || Prefix(ref) != crit.referencePrefix {
        return false;
      }
    }
    if crit.account != "" {
      if AccountKey(e, Either(cand, DebtorAccount, CreditorAccount)) != AccountKey(e, crit.account) {
        return false;
      }
    }
    return true;
  }

  /** The candidates that pass, in order, other than the record itself. */
  function Survivors(e: Engine, p: Policy, src: Record, candidates: seq<Record>): seq<Record> {
    if candidates == [] then []
    else
      var last := candidates[|candidates| - 1];
      Survivors(e, p, src, candidates[..|candidates| - 1])
      + if last.recordId != src.recordId && Passes(e, last, CriteriaOf(e, src, p)) then [last] else []
  }

  function Narrowed(e: Engine, p: Policy, src: Record, candidates: seq<Record>): seq<Record> {
    var s := Survivors(e, p, src, candidates);
    if |s| <= DEFAULT_MAX_CANDIDATES then s else s[..DEFAULT_MAX_CANDIDATES]
  }

  /** `_filter_candidates` */
  method FilterCandidates(e: Engine, p: Policy, src: Record, candidates: seq<Record>) returns (results: seq<Record>)
    ensures results == Narrowed(e, p, src, candidates)
  {
    var crit := NarrowingCriteria(e, src, p);
    results := [];
    for i := 0 to |candidates|
      invariant results == Survivors(e, p, src, candidates[..i])
    {
      assert candidates[..i + 1][..i] == candidates[..i];
      if candidates[i].recordId == src.recordId {
        continue;
      }
      var fits := CandidateMatches(e, candidates[i], crit);
      if fits {
        results := results + [candidates[i]];
      }
    }
    assert candidates[..|candidates|] == candidates;
    results := if |results| <= DEFAULT_MAX_CANDIDATES then results else results[..DEFAULT_MAX_CANDIDATES];
  }

  lemma {:induction false} SurvivorsAre(e: Engine, p: Policy, src: Record, candidates: seq<Record>, c: Record)
    ensures c in Survivors(e, p, src, candidates)
      <==> c in candidates && c.recordId != src.recordId && Passes(e, c, CriteriaOf(e, src, p))
  {
    if candidates != [] {
      var front, last := candidates[..|candidates| - 1], candidates[|candidates| - 1];
      SurvivorsAre(e, p, src, front, c);
      assert candidates == front + [last];
    }
  }

  // ----- the filter and the evaluator -----

  lemma WindowHoldsItself(x: real, tolerance: real)
    requires tolerance != 0.0
    ensures x - x * (tolerance / 100.0) <= x <= x + x * (tolerance / 100.0) <==> x * tolerance >= 0.0
  {
    assert x * (tolerance / 100.0) == x * tolerance / 100.0;
  }

  lemma TwinNear(a: Record, b: Record)
    requires Twins(a, b) && DateFields(a) != []
    ensures AnyNear(b, DateFields(a), DEFAULT_DATE_WINDOW_DAYS)
  {
    var ds := DateFields(a);
    assert Near(DayOf(b, ds[0].0), ds[0].1, DEFAULT_DATE_WINDOW_DAYS);
  }

  /** A twin survives narrowing exactly when the amount and the tolerance have no opposite signs. */
  lemma TwinSurvives(e: Engine, p: Policy, a: Record, b: Record)
    requires Twins(a, b)
    ensures Passes(e, b, CriteriaOf(e, a, p)) <==> (a.amount.Some? ==> a.amount.value * Tolerance(p) >= 0.0)
  {
    if DateFields(a) != [] {
      TwinNear(a, b);
    }
    if a.amount.Some? && Tolerance(p) != 0.0 {
      WindowHoldsItself(a.amount.value, Tolerance(p));
    }
    TwinTextsFit(e, p, a, b);
  }

  lemma TwinTextsFit(e: Engine, p: Policy, a: Record, b: Record)
    requires Twins(a, b)
    ensures var crit := CriteriaOf(e, a, p); CurrencyFits(b, crit) && ReferenceFits(e, b, crit) && AccountFits(e, b, crit)
  {
  }

  // ----- a candidate that agrees wherever both carry data -----

  /** Normalization that keeps blank apart from text. */
  ghost predicate KeepsBlank(e: Engine) { e.nfkc("") == "" && forall s :: e.upper(s) == "" <==> s == "" }

  predicate SignsAgree(a: Record, p: Policy) { a.amount.Some? ==> a.amount.value * Tolerance(p) >= 0.0 }

  /** One side has no date, or some kind of date is given on both. */
  predicate DatesMeet(a: Record, b: Record) {
    || (a.bookingDate.None? && a.valueDate.None?) || (b.bookingDate.None? && b.valueDate.None?)
    || (a.bookingDate.Some? && b.bookingDate.Some?) || (a.valueDate.Some? && b.valueDate.Some?)
  }

  /** The field that `r.f or r.g` reads. */
  function Chosen(r: Record, f: Field, g: Field): Field { if Text(r, f) != "" then f else g }

  function ReferenceField(r: Record): Field { Chosen(r, RemittanceReference, ExternalReference) }

  function AccountField(r: Record): Field { Chosen(r, DebtorAccount, CreditorAccount) }

  /** The source asks for no reference; or the candidate has one, and it is the same field on both sides
      or the two different fields begin alike. */
  predicate ReferencesMeet(e: Engine, a: Record, b: Record) {
    ReferencePrefix(e, a) == ""
    || (Text(b, ReferenceField(b)) != ""
        && (ReferenceField(a) == ReferenceField(b) || ReferencePrefix(e, a) == ReferencePrefix(e, b)))
  }

  /** The source has no account; or the candidate has none and the source's is blank; or both have one, in
      the same field or the same account in two different fields. */
  predicate AccountsMeet(e: Engine, a: Record, b: Record) {
    var x, y := Text(a, AccountField(a)), Text(b, AccountField(b));
    || x == "" || (y == "" && AccountKey(e, x) == "")
    || (y != "" && (AccountField(a) == AccountField(b) || AccountKey(e, x) == AccountKey(e, y)))
  }

  lemma BlankReference(e: Engine)
    requires KeepsBlank(e)
    ensures Reference(e, "") == "" && AccountKey(e, "") == ""
  {
    assert Without("", {' ', '-', '.', '#'}) == "" && Without("", {' ', '-'}) == "";
  }

  lemma CompatibleDates(a: Record, b: Record, crit: Criteria)
    requires Compatible(a, b) && crit.dateFields == DateFields(a) && crit.windowDays == DEFAULT_DATE_WINDOW_DAYS
    ensures DatesFit(b, crit) <==> DatesMeet(a, b)
  {
    var ds := DateFields(a);
    if a.bookingDate.Some? && b.bookingDate.Some? {
      assert Near(DayOf(b, ds[0].0), ds[0].1, DEFAULT_DATE_WINDOW_DAYS);
    }
    if a.valueDate.Some? && b.valueDate.Some? {
      assert Near(DayOf(b, ds[|ds| - 1].0), ds[|ds| - 1].1, DEFAULT_DATE_WINDOW_DAYS);
    }
  }

  lemma CompatibleReferences(e: Engine, p: Policy, a: Record, b: Record)
    requires KeepsBlank(e) && Compatible(a, b)
    ensures ReferenceFits(e, b, CriteriaOf(e, a, p)) <==> ReferencesMeet(e, a, b)
  {
    BlankReference(e);
    var f := ReferenceField(a);
    assert Text(a, f) == "" || Text(b, f) == "" || Text(a, f) == Text(b, f);
  }

  lemma CompatibleAccounts(e: Engine, p: Policy, a: Record, b: Record)
    requires KeepsBlank(e) && Compatible(a, b)
    ensures AccountFits(e, b, CriteriaOf(e, a, p)) <==> AccountsMeet(e, a, b)
  {
    BlankReference(e);
    var f := AccountField(a);
    assert Text(a, f) == "" || Text(b, f) == "" || Text(a, f) == Text(b, f);
  }

  lemma CompatibleAmounts(e: Engine, p: Policy, a: Record, b: Record)
    requires Compatible(a, b)
    ensures AmountFits(b, CriteriaOf(e, a, p)) <==> b.amount.None? || SignsAgree(a, p)
  {
    if a.amount.Some? && Tolerance(p) != 0.0 {
      WindowHoldsItself(a.amount.value, Tolerance(p));
    }
  }

  /** The exact condition under which a candidate that agrees wherever both records carry data passes. */
  lemma CompatiblePasses(e: Engine, p: Policy, a: Record, b: Record)
    requires KeepsBlank(e) && Compatible(a, b)
    ensures Passes(e, b, CriteriaOf(e, a, p))
      <==> (b.amount.Some? ==> SignsAgree(a, p)) && DatesMeet(a, b) && ReferencesMeet(e, a, b) && AccountsMeet(e, a, b)
  {
    var crit := CriteriaOf(e, a, p);
    assert Text(a, CurrencyCode) == "" || Text(b, CurrencyCode) == "" || Text(a, CurrencyCode) == Text(b, CurrencyCode);
    CompatibleAmounts(e, p, a, b);
    CompatibleDates(a, b, crit);
    CompatibleReferences(e, p, a, b);
    CompatibleAccounts(e, p, a, b);
  }

  function AccountOf(r: Record): string { Either(r, DebtorAccount, CreditorAccount) }

  /** A twin without any reference and account survives exactly when the source asks for neither: its
      reference and its account normalize to nothing. */
  lemma LacksReferenceAndAccount(e: Engine, p: Policy, a: Record, b: Record)
    requires KeepsBlank(e) && Lacks(a, b, {RemittanceReference, ExternalReference, DebtorAccount, CreditorAccount})
    ensures Passes(e, b, CriteriaOf(e, a, p))
      <==> SignsAgree(a, p) && ReferencePrefix(e, a) == "" && AccountKey(e, AccountOf(a)) == ""
  {
    LackingCompatible(a, b, {RemittanceReference, ExternalReference, DebtorAccount, CreditorAccount});
    CompatiblePasses(e, p, a, b);
  }

  /** A twin without the remittance reference is compared by its external one. */
  lemma LacksRemittance(e: Engine, p: Policy, a: Record, b: Record)
    requires KeepsBlank(e) && Lacks(a, b, {RemittanceReference})
    ensures Passes(e, b, CriteriaOf(e, a, p))
      <==> SignsAgree(a, p)
           && (ReferencePrefix(e, a) == "" || Prefix(Reference(e, Text(a, ExternalReference))) == ReferencePrefix(e, a))
  {
    LackingCompatible(a, b, {RemittanceReference});
    CompatiblePasses(e, p, a, b);
    BlankReference(e);
  }

  /** A twin without the debtor account is compared by the creditor account. */
  lemma LacksDebtorAccount(e: Engine, p: Policy, a: Record, b: Record)
    requires KeepsBlank(e) && Lacks(a, b, {DebtorAccount})
    ensures Passes(e, b, CriteriaOf(e, a, p))
      <==> SignsAgree(a, p) && AccountKey(e, Text(a, CreditorAccount)) == AccountKey(e, AccountOf(a))
  {
    LackingCompatible(a, b, {DebtorAccount});
    CompatiblePasses(e, p, a, b);
    BlankReference(e);
  }

  /** A source without the remittance reference compares its external one with
      the remittance reference of the candidate. */
  lemma SourceLacksRemittance(e: Engine, p: Policy, a: Record, b: Record)
    requires KeepsBlank(e) && Lacks(b, a, {RemittanceReference}) && Text(b, RemittanceReference) != ""
    ensures Passes(e, b, CriteriaOf(e, a, p))
      <==> SignsAgree(a, p)
           && (ReferencePrefix(e, a) == "" || Prefix(Reference(e, Text(b, RemittanceReference))) == ReferencePrefix(e, a))
  {
    LackingCompatible(b, a, {RemittanceReference});
    CompatiblePasses(e, p, a, b);
    BlankReference(e);
  }

  /** A source without the debtor account compares its creditor account with the candidate's debtor account. */
  lemma SourceLacksDebtorAccount(e: Engine, p: Policy, a: Record, b: Record)
    requires KeepsBlank(e) && Lacks(b, a, {DebtorAccount}) && Text(b, DebtorAccount) != ""
    ensures Passes(e, b, CriteriaOf(e, a, p))
      <==> SignsAgree(a, p)
           && (Text(a, CreditorAccount) == ""
               || AccountKey(e, Text(a, CreditorAccount)) == AccountKey(e, Text(b, DebtorAccount)))
  {
    LackingCompatible(b, a, {DebtorAccount});
    CompatiblePasses(e, p, a, b);
    BlankReference(e);
  }

  // ----- dropped for missing data -----

  /** `b` would match `a` with a score of 100 and no conflict, and narrowing drops it. */
  ghost predicate DroppedMatch(e: Engine, p: Policy, a: Record, b: Record) {
    && Compatible(a, b) && a.recordId != b.recordId
    && Evaluate(e, p, a, b).score == 10000 && Evaluate(e, p, a, b).conflicts == []
    && !Passes(e, b, CriteriaOf(e, a, p))
  }

  /** The letter is a reference, an account and an identifier that normalization keeps. */
  ghost predicate KeepsLetter(e: Engine, c: char) {
    c !in {' ', '-', '.', '#'} && e.nfkc([c]) == [c] && e.upper([c]) == [c]
  }

  lemma LetterReference(e: Engine, c: char)
    requires KeepsLetter(e, c)
    ensures Reference(e, [c]) == [c] && AccountKey(e, [c]) == [c] && Prefix([c]) == [c]
  {
    assert Without([c], {' ', '-', '.', '#'}) == [c] && Without([c], {' ', '-'}) == [c];
  }

  /** A record that carries an end-to-end id and these texts. */
  function Sample(id: string, texts: map<Field, string>): Record {
    Record(id, texts[EndToEndId := "X"], None, None, None)
  }

  ghost predicate Weighs(e: Engine, p: Policy) { e.normalize(EndToEndId, "X") == Some("X") && WeightIn(p, EndToEndId) > 0.0 }

  lemma SampleMatches(e: Engine, p: Policy, a: Record, b: Record)
    requires Weighs(e, p) && Compatible(a, b) && Text(a, EndToEndId) == "X" == Text(b, EndToEndId)
    requires !(a.bookingDate.Some? && b.bookingDate.Some?) && !(a.valueDate.Some? && b.valueDate.Some?)
    ensures Evaluate(e, p, a, b).score == 10000 && Evaluate(e, p, a, b).conflicts == []
  {
    CompatibleScores100(e, p, a, b, EndToEndId);
  }

  /** The candidate lacks only the remittance reference. */
  lemma DroppedOnMissingReference(e: Engine, p: Policy) returns (a: Record, b: Record)
    requires KeepsBlank(e) && KeepsLetter(e, 'R') && Weighs(e, p)
    ensures Lacks(a, b, {RemittanceReference}) && DroppedMatch(e, p, a, b)
  {
    a := Sample("source", map[RemittanceReference := ['R']]);
    b := a.(recordId := "candidate", texts := a.texts - {RemittanceReference});
    LackingCompatible(a, b, {RemittanceReference});
    SampleMatches(e, p, a, b);
    LetterReference(e, 'R');
    BlankReference(e);
    LacksRemittance(e, p, a, b);
  }

  /** The source lacks only the remittance reference, and the external references are equal. */
  lemma DroppedOnSourceReference(e: Engine, p: Policy) returns (a: Record, b: Record)
    requires KeepsBlank(e) && KeepsLetter(e, 'R') && KeepsLetter(e, 'S') && Weighs(e, p)
    ensures Lacks(b, a, {RemittanceReference}) && Text(a, ExternalReference) == Text(b, ExternalReference) != ""
    ensures DroppedMatch(e, p, a, b)
  {
    b := Sample("candidate", map[RemittanceReference := ['R'], ExternalReference := ['S']]);
    a := b.(recordId := "source", texts := b.texts - {RemittanceReference});
    LackingCompatible(b, a, {RemittanceReference});
    SampleMatches(e, p, a, b);
    LetterReference(e, 'R');
    LetterReference(e, 'S');
    SourceLacksRemittance(e, p, a, b);
  }

  /** The source lacks only the debtor account, and the creditor accounts are equal. */
  lemma DroppedOnSourceAccount(e: Engine, p: Policy) returns (a: Record, b: Record)
    requires KeepsBlank(e) && KeepsLetter(e, 'C') && KeepsLetter(e, 'D') && Weighs(e, p)
    ensures Lacks(b, a, {DebtorAccount}) && Text(a, CreditorAccount) == Text(b, CreditorAccount) != ""
    ensures DroppedMatch(e, p, a, b)
  {
    b := Sample("candidate", map[DebtorAccount := ['D'], CreditorAccount := ['C']]);
    a := b.(recordId := "source", texts := b.texts - {DebtorAccount});
    LackingCompatible(b, a, {DebtorAccount});
    SampleMatches(e, p, a, b);
    LetterReference(e, 'C');
    LetterReference(e, 'D');
    SourceLacksDebtorAccount(e, p, a, b);
  }

  /** The source has only a booking date and the candidate only a value date, on the same day. */
  lemma DroppedOnDisjointDates(e: Engine, p: Policy, day: int) returns (a: Record, b: Record)
    requires KeepsBlank(e) && Weighs(e, p)
    ensures a == b.(recordId := a.recordId, bookingDate := Some(day), valueDate := None)
    ensures b.bookingDate.None? && b.valueDate == Some(day)
    ensures DroppedMatch(e, p, a, b)
  {
    a := Sample("source", map[]).(bookingDate := Some(day));
    b := Sample("candidate", map[]).(valueDate := Some(day));
    SampleMatches(e, p, a, b);
    CompatiblePasses(e, p, a, b);
  }

  /** A negative amount leaves no room for any candidate with an amount. */
  lemma NegativeAmountMatchesNothing(e: Engine, p: Policy, a: Record, b: Record)
    requires a.amount.Some? && a.amount.value < 0.0 && Tolerance(p) > 0.0 && b.amount.Some?
    ensures !Passes(e, b, CriteriaOf(e, a, p))
  {
    WindowEmpty(a.amount.value, Tolerance(p) / 100.0);
  }

  lemma WindowEmpty(x: real, pct: real)
    requires x < 0.0 && pct > 0.0
    ensures x - x * pct > x + x * pct
  {
    assert x * pct < 0.0;
  }

  /** With a positive configured tolerance and a non-negative amount, the evaluator finds no amount
      mismatch in any candidate that narrowing lets through. */
  lemma SurvivorAmountAgrees(e: Engine, p: Policy, a: Record, b: Record)
    requires p.amountTolerance.Some? && p.amountTolerance.value > 0.0
    requires a.amount.Some? ==> a.amount.value >= 0.0
    requires Passes(e, b, CriteriaOf(e, a, p))
    ensures Compare(e, p, a, b, AmountField).status != Mismatch
  {
    if a.amount.Some? && b.amount.Some? {
      WindowWithin(a.amount.value, b.amount.value, p.amountTolerance.value / 100.0);
    }
  }

  lemma WindowWithin(x: real, y: real, pct: real)
    requires x >= 0.0 && pct > 0.0 && x - x * pct <= y <= x + x * pct
    ensures Abs(x - y) <= Max(Max(Abs(x), Abs(y)), 1.0) * pct
  {
    WithinBase(x, y, pct, Max(Max(Abs(x), Abs(y)), 1.0));
  }

  lemma WithinBase(x: real, y: real, pct: real, base: real)
    requires pct > 0.0 && x - x * pct <= y <= x + x * pct && x <= base
    ensures Abs(x - y) <= base * pct
  {
    ProductGrows(x, base, pct);
  }

  lemma ProductGrows(x: real, y: real, pct: real)
    requires x <= y && pct > 0.0
    ensures x * pct <= y * pct
  {
  }
}
