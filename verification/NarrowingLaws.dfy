// What narrowing asks of a candidate, in terms of the two records alone, and which passing candidates it keeps.
module NarrowingLaws {
  import opened Strings
  import opened Sorting
  import opened Matcher
  import opened Narrowing

  // ----- the five demands -----

  predicate Blank(r: Record, f: Field) { f !in r.texts || r.texts[f] == "" }

  /** The text under `f`, or under `g` when there is none. */
  function TextUnder(r: Record, f: Field, g: Field): string {
    if !Blank(r, f) then r.texts[f] else if !Blank(r, g) then r.texts[g] else ""
  }

  predicate CurrenciesMeet(a: Record, b: Record) {
    Blank(a, CurrencyCode) || Blank(b, CurrencyCode) || a.texts[CurrencyCode] == b.texts[CurrencyCode]
  }

  /** The amounts are at most the policy's percentage of the source's amount apart, 20 when it has none; a
      percentage of zero asks nothing. */
  predicate AmountsMeet(a: Record, b: Record, p: Policy) {
    var percent := if p.amountTolerance.Some? then p.amountTolerance.value else 20.0;
    a.amount.Some? && b.amount.Some? && percent != 0.0 ==>
      var x, y := a.amount.value, b.amount.value;
      100.0 * (x - y) <= x * percent && 100.0 * (y - x) <= x * percent
  }

  predicate WithinWeek(x: Option<int>, y: Option<int>) { x.Some? && y.Some? && -7 <= x.value - y.value <= 7 }

  predicate Undated(r: Record) { r.bookingDate.None? && r.valueDate.None? }

  predicate DaysMeet(a: Record, b: Record) {
    || Undated(a) || Undated(b)
    || WithinWeek(a.bookingDate, b.bookingDate) || WithinWeek(a.valueDate, b.valueDate)
  }

  /** The first `n` characters agree; texts shorter than that agree altogether. */
  predicate AlikeUpTo(x: string, y: string, n: nat) {
    if |x| < n || |y| < n then x == y else x[..n] == y[..n]
  }

  function Spared(dropped: set<char>): char -> bool { c => c !in dropped }

  /** The reference without blanks, hyphens, dots and hashes, in upper case. */
  function ReferenceRead(e: Engine, x: string): string { e.upper(Filter(Spared({' ', '-', '.', '#'}), e.nfkc(x))) }

  function AccountRead(e: Engine, x: string): string { e.upper(Filter(Spared({' ', '-'}), x)) }

  /** The source has no reference or it reads blank; or both references begin with the same eight characters. */
  predicate ReferencesBeginAlike(e: Engine, a: Record, b: Record) {
    var x, y := TextUnder(a, RemittanceReference, ExternalReference), TextUnder(b, RemittanceReference, ExternalReference);
    x == "" || ReferenceRead(e, x) == "" || AlikeUpTo(ReferenceRead(e, x), ReferenceRead(e, y), 8)
  }

  /** The source has no account, or both accounts read the same. */
  predicate SameAccounts(e: Engine, a: Record, b: Record) {
    var x, y := TextUnder(a, DebtorAccount, CreditorAccount), TextUnder(b, DebtorAccount, CreditorAccount);
    x == "" || AccountRead(e, x) == AccountRead(e, y)
  }

  // ----- the filter meets exactly these demands -----

  lemma {:induction false} WithoutIs(s: string, dropped: set<char>)
    ensures Without(s, dropped) == Filter(Spared(dropped), s)
  {
    if s != "" {
      WithoutIs(s[1..], dropped);
    }
  }

  lemma PrefixIs(x: string, y: string)
    ensures Prefix(x) == Prefix(y) <==> AlikeUpTo(x, y, 8)
    ensures Prefix(x) == "" <==> x == ""
  {
    assert |Prefix(x)| == if |x| <= 8 then |x| else 8;
    assert |Prefix(y)| == if |y| <= 8 then |y| else 8;
  }

  lemma CurrencyMeans(a: Record, b: Record, crit: Criteria)
    requires crit.currency == Text(a, CurrencyCode)
    ensures CurrencyFits(b, crit) <==> CurrenciesMeet(a, b)
  {
  }

  lemma WindowMeans(x: real, y: real, percent: real)
    ensures x - x * (percent / 100.0) <= y <= x + x * (percent / 100.0)
      <==> 100.0 * (x - y) <= x * percent && 100.0 * (y - x) <= x * percent
  {
    assert x * (percent / 100.0) == x * percent / 100.0;
  }

  lemma AmountMeans(a: Record, b: Record, p: Policy, crit: Criteria)
    requires crit.amountWindow == AmountWindow(a, p)
    ensures AmountFits(b, crit) <==> AmountsMeet(a, b, p)
  {
    if a.amount.Some? && b.amount.Some? {
      WindowMeans(a.amount.value, b.amount.value, Tolerance(p));
    }
  }

  lemma DatesMean(a: Record, b: Record, crit: Criteria)
    requires crit.dateFields == DateFields(a) && crit.windowDays == DEFAULT_DATE_WINDOW_DAYS
    ensures DatesFit(b, crit) <==> DaysMeet(a, b)
  {
    var ds := DateFields(a);
    if WithinWeek(a.bookingDate, b.bookingDate) {
      assert Near(DayOf(b, ds[0].0), ds[0].1, crit.windowDays);
    }
    if WithinWeek(a.valueDate, b.valueDate) {
      assert Near(DayOf(b, ds[|ds| - 1].0), ds[|ds| - 1].1, crit.windowDays);
    }
  }

  lemma ReadsAre(e: Engine, x: string)
    ensures Reference(e, x) == ReferenceRead(e, x) && AccountKey(e, x) == AccountRead(e, x)
  {
    WithoutIs(e.nfkc(x), {' ', '-', '.', '#'});
    WithoutIs(x, {' ', '-'});
  }

  lemma ReferencesMean(e: Engine, a: Record, b: Record, crit: Criteria)
    requires crit.referencePrefix == ReferencePrefix(e, a)
    ensures ReferenceFits(e, b, crit) <==> ReferencesBeginAlike(e, a, b)
  {
    var x, y := TextUnder(a, RemittanceReference, ExternalReference), TextUnder(b, RemittanceReference, ExternalReference);
    ReadsAre(e, x);
    ReadsAre(e, y);
    PrefixIs(Reference(e, x), Reference(e, y));
  }

  lemma AccountsMean(e: Engine, a: Record, b: Record, crit: Criteria)
    requires crit.account == Either(a, DebtorAccount, CreditorAccount)
    ensures AccountFits(e, b, crit) <==> SameAccounts(e, a, b)
  {
    ReadsAre(e, TextUnder(a, DebtorAccount, CreditorAccount));
    ReadsAre(e, TextUnder(b, DebtorAccount, CreditorAccount));
  }

  predicate Meets(e: Engine, p: Policy, a: Record, b: Record) {
    && CurrenciesMeet(a, b) && AmountsMeet(a, b, p) && DaysMeet(a, b)
    && ReferencesBeginAlike(e, a, b) && SameAccounts(e, a, b)
  }

  /** A candidate passes exactly when it meets the five demands, for any two records and any policy. */
  lemma PassesMeans(e: Engine, p: Policy, a: Record, b: Record)
    ensures Passes(e, b, CriteriaOf(e, a, p)) <==> Meets(e, p, a, b)
  {
    var crit := CriteriaOf(e, a, p);
    CurrencyMeans(a, b, crit);
    AmountMeans(a, b, p, crit);
    DatesMean(a, b, crit);
    ReferencesMean(e, a, b, crit);
    AccountsMean(e, a, b, crit);
  }

  // ----- which candidates are kept -----

  predicate Kept(e: Engine, p: Policy, src: Record, c: Record) { c.recordId != src.recordId && Meets(e, p, src, c) }

  function KeptFn(e: Engine, p: Policy, src: Record): Record -> bool { c => Kept(e, p, src, c) }

  predicate Rising(at: seq<nat>) { forall i, j :: 0 <= i < j < |at| ==> at[i] < at[j] }

  /** `at` lists, in order, every place of `s` where `p` holds. */
  predicate AllPlaces<T>(p: T -> bool, s: seq<T>, at: seq<nat>) {
    && Rising(at) && (forall i :: 0 <= i < |at| ==> at[i] < |s| && p(s[at[i]]))
    && (forall k :: 0 <= k < |s| && p(s[k]) ==> k in at)
  }

  predicate ListedAt<T(==)>(r: seq<T>, s: seq<T>, at: seq<nat>) {
    |r| == |at| && forall i :: 0 <= i < |at| ==> at[i] < |s| && r[i] == s[at[i]]
  }

  lemma OneMorePlace<T>(p: T -> bool, front: seq<T>, last: T, at: seq<nat>)
    requires AllPlaces(p, front, at)
    ensures AllPlaces(p, front + [last], if p(last) then at + [|front|] else at)
  {
    var all, at' := front + [last], if p(last) then at + [|front|] else at;
    forall k | 0 <= k < |all| && p(all[k]) ensures k in at' {
      if k < |front| {
        assert k in at;
      } else {
        assert at'[|at|] == k;
      }
    }
    forall i | 0 <= i < |at'| ensures at'[i] < |all| && p(all[at'[i]]) {
      if i < |at| {
        assert all[at[i]] == front[at[i]];
      }
    }
  }

  lemma FilterLast<T(!new)>(p: T -> bool, front: seq<T>, last: T)
    ensures Filter(p, front + [last]) == Filter(p, front) + if p(last) then [last] else []
  {
    FilterAppend(p, front, [last]);
    FilterCons(p, last, []);
    assert [last] + [] == [last];
  }

  lemma OneMoreListed<T>(r: seq<T>, front: seq<T>, last: T, at: seq<nat>)
    requires ListedAt(r, front, at)
    ensures ListedAt(r, front + [last], at) && ListedAt(r + [last], front + [last], at + [|front|])
  {
  }

  lemma {:induction false} FilterPlaces<T(!new)>(p: T -> bool, s: seq<T>, n: nat) returns (at: seq<nat>)
    requires n <= |s|
    ensures AllPlaces(p, s[..n], at) && ListedAt(Filter(p, s[..n]), s[..n], at)
  {
    if n == 0 {
      at := [];
    } else {
      var front, last := s[..n - 1], s[n - 1];
      assert s[..n] == front + [last];
      var before := FilterPlaces(p, s, n - 1);
      OneMorePlace(p, front, last, before);
      FilterLast(p, front, last);
      OneMoreListed(Filter(p, front), front, last, before);
      at := if p(last) then before + [|front|] else before;
    }
  }

  lemma KeptIs(e: Engine, p: Policy, src: Record, c: Record)
    ensures KeptFn(e, p, src)(c) <==> c.recordId != src.recordId && Passes(e, c, CriteriaOf(e, src, p))
  {
    PassesMeans(e, p, src, c);
  }

  lemma SurvivorsNext(e: Engine, p: Policy, src: Record, front: seq<Record>, last: Record, keeps: bool)
    requires keeps <==> last.recordId != src.recordId && Passes(e, last, CriteriaOf(e, src, p))
    ensures Survivors(e, p, src, front + [last]) == Survivors(e, p, src, front) + if keeps then [last] else []
  {
    var all := front + [last];
    assert all[..|all| - 1] == front && all[|all| - 1] == last;
  }

  lemma {:induction false} SurvivorsFiltered(e: Engine, p: Policy, src: Record, candidates: seq<Record>)
    ensures Survivors(e, p, src, candidates) == Filter(KeptFn(e, p, src), candidates)
  {
    if candidates != [] {
      var front, last, keep := candidates[..|candidates| - 1], candidates[|candidates| - 1], KeptFn(e, p, src);
      SurvivorsFiltered(e, p, src, front);
      KeptIs(e, p, src, last);
      SurvivorsNext(e, p, src, front, last, keep(last));
      FilterLast(keep, front, last);
      assert candidates == front + [last];
    }
  }

  /** The first twenty of all places, and no other of them before the last. */
  predicate Twenty(all: seq<nat>, at: seq<nat>) {
    |at| <= 20 && at <= all && forall k :: k in all ==> k in at || (|at| == 20 && at[19] < k)
  }

  lemma FirstTwenty(all: seq<nat>) returns (at: seq<nat>)
    requires Rising(all)
    ensures Twenty(all, at) && (|all| <= 20 ==> at == all) && (|all| > 20 ==> |at| == 20)
  {
    at := if |all| <= 20 then all else all[..20];
    forall k | k in all ensures k in at || (|at| == 20 && at[19] < k) {
      var i :| 0 <= i < |all| && all[i] == k;
      if i < |at| {
        assert at[i] == k;
      }
    }
  }

  lemma ListedPrefix(r: seq<Record>, s: seq<Record>, all: seq<nat>, at: seq<nat>)
    requires ListedAt(r, s, all) && at <= all
    ensures ListedAt(r[..|at|], s, at)
  {
  }

  lemma KeptPrefix(e: Engine, p: Policy, src: Record, candidates: seq<Record>, all: seq<nat>, at: seq<nat>)
    requires AllPlaces(KeptFn(e, p, src), candidates, all) && Twenty(all, at)
    ensures FirstKept(e, p, src, candidates, at)
  {
    forall i | 0 <= i < |at| ensures at[i] < |candidates| && Kept(e, p, src, candidates[at[i]]) {
      assert all[i] == at[i] && KeptFn(e, p, src)(candidates[all[i]]);
    }
    forall k | 0 <= k < |candidates| && Kept(e, p, src, candidates[k]) ensures k in at || (|at| == 20 && at[19] < k) {
      assert KeptFn(e, p, src)(candidates[k]);
    }
  }

  /** `at` lists, in order, the places of the candidates that are other records than the source and meet the
      demands: the first twenty of them. */
  ghost predicate FirstKept(e: Engine, p: Policy, src: Record, candidates: seq<Record>, at: seq<nat>) {
    && |at| <= 20 && Rising(at)
    && (forall i :: 0 <= i < |at| ==> at[i] < |candidates| && Kept(e, p, src, candidates[at[i]]))
    && (forall k :: 0 <= k < |candidates| && Kept(e, p, src, candidates[k]) ==> k in at || (|at| == 20 && at[19] < k))
  }

  /** Narrowing keeps exactly those, in their order. */
  lemma NarrowedMeans(e: Engine, p: Policy, src: Record, candidates: seq<Record>) returns (at: seq<nat>)
    ensures FirstKept(e, p, src, candidates, at) && ListedAt(Narrowed(e, p, src, candidates), candidates, at)
  {
    SurvivorsFiltered(e, p, src, candidates);
    assert candidates[..|candidates|] == candidates;
    var all := FilterPlaces(KeptFn(e, p, src), candidates, |candidates|);
    at := FirstTwenty(all);
    var survivors := Survivors(e, p, src, candidates);
    ListedPrefix(survivors, candidates, all, at);
    KeptPrefix(e, p, src, candidates, all, at);
    assert Narrowed(e, p, src, candidates) == survivors[..|at|];
  }
}
