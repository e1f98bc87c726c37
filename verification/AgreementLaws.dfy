// When the fields of an account entry, or of two profiles, agree: what padding, case, blanks and hyphens
// have to do with it, and which of several fields counts.
module AgreementLaws {
  import opened Strings
  import opened Sorting
  import opened Correlation
  import TextLaws
  import Narrowing
  import NarrowingLaws
  import A = AccountReconciliation

  /** `u` is the text within the blanks around `x`. */
  ghost predicate Within(x: string, u: string) {
    Trimmed(u) && exists pre, post :: TextLaws.AllBlank(pre) && TextLaws.AllBlank(post) && x == pre + u + post
  }

  lemma WithinIs(x: string, u: string)
    ensures Within(x, u) <==> u == Strip(x)
  {
    var before, after := TextLaws.StripLeaves(x);
    if Within(x, u) {
      var pre, post :| TextLaws.AllBlank(pre) && TextLaws.AllBlank(post) && x == pre + u + post;
      TextLaws.StripMeans(pre, u, post);
    }
  }

  predicate BothGiven(a: Option<string>, b: Option<string>) { a.Some? && b.Some? && a.value != "" && b.value != "" }

  /** The texts within the blanks are the same in upper case. */
  ghost predicate SameWithin(e: A.Engine, x: string, y: string) {
    exists u, v :: Within(x, u) && Within(y, v) && e.upper(u) == e.upper(v)
  }

  /** Identifiers agree, or differ, when both are given: blanks around them and case do not count. */
  lemma IdentifiersMean(e: A.Engine, a: Option<string>, b: Option<string>)
    ensures A.SameId(e, a, b) <==> BothGiven(a, b) && SameWithin(e, a.value, b.value)
    ensures A.OtherId(e, a, b) <==> BothGiven(a, b) && !SameWithin(e, a.value, b.value)
  {
    if BothGiven(a, b) {
      var x, y := Strip(a.value), Strip(b.value);
      WithinIs(a.value, x);
      WithinIs(b.value, y);
      if SameWithin(e, a.value, b.value) {
        var u, v :| Within(a.value, u) && Within(b.value, v) && e.upper(u) == e.upper(v);
        WithinIs(a.value, u);
        WithinIs(b.value, v);
      }
    }
  }

  /** Accounts agree when both are given and are the same without blanks and hyphens, in upper case. */
  lemma AccountsMean(e: A.Engine, a: Option<string>, b: Option<string>)
    ensures A.SameAccount(e, a, b) <==>
      && BothGiven(a, b)
      && e.upper(Filter(NarrowingLaws.Spared({' ', '-'}), a.value)) == e.upper(Filter(NarrowingLaws.Spared({' ', '-'}), b.value))
  {
    if BothGiven(a, b) {
      NarrowingLaws.WithoutIs(a.value, {' ', '-'});
      NarrowingLaws.WithoutIs(b.value, {' ', '-'});
    }
  }

  /** An account report speaks of its IBAN, or of its other identification when it has none. */
  lemma EntryAccountMeans(account: A.AccountRef, x: string)
    requires x != ""
    ensures A.EntryAccount(Some(account)) == Some(x) <==>
      account.iban == Some(x) || ((account.iban.None? || account.iban.value == "") && account.otherIdentification == Some(x))
  {
  }

  /** On the creditor's account a credit is expected, on the debtor's account, unless it is also the
      creditor's, a debit, and on any other account nothing. */
  lemma DirectionMeans(e: A.Engine, entry: A.Entry, account: Option<string>, c: A.Context)
    ensures var credited, debited := A.SameAccount(e, account, c.creditorAccount), A.SameAccount(e, account, c.debtorAccount);
      && (A.AsExpected(e, entry, account, c) <==>
            (credited && entry.creditDebit == Some(A.Credit)) || (!credited && debited && entry.creditDebit == Some(A.Debit)))
      && (A.AgainstExpected(e, entry, account, c) <==>
            && entry.creditDebit.Some?
            && ((credited && entry.creditDebit.value != A.Credit) || (!credited && debited && entry.creditDebit.value != A.Debit)))
  {
  }

  /** `x` is the entry's currency: its own, or that of its amount when it has none. */
  predicate InCurrency(entry: A.Entry, x: string) {
    || entry.currency == Some(x)
    || ((entry.currency.None? || entry.currency.value == "") && entry.amount.Some? && entry.amount.value.currency == x)
  }

  ghost predicate CurrenciesAgree(e: A.Engine, entry: A.Entry, y: string, same: bool) {
    exists x :: x != "" && InCurrency(entry, x) && (e.upper(x) == e.upper(y) <==> same)
  }

  lemma CurrencyIs(entry: A.Entry, x: string)
    requires x != ""
    ensures InCurrency(entry, x) <==> A.EntryCurrency(entry) == Some(x)
  {
  }

  /** Currencies are compared when both sides have one, in upper case. */
  lemma CurrenciesMean(e: A.Engine, entry: A.Entry, c: A.Context)
    ensures A.SameCurrency(e, entry, c) <==>
      c.currency.Some? && c.currency.value != "" && CurrenciesAgree(e, entry, c.currency.value, true)
    ensures A.OtherCurrency(e, entry, c) <==>
      c.currency.Some? && c.currency.value != "" && CurrenciesAgree(e, entry, c.currency.value, false)
  {
    var ccy := A.EntryCurrency(entry);
    if Given(ccy) {
      CurrencyIs(entry, ccy.value);
    }
    forall x | x != "" && InCurrency(entry, x) ensures ccy == Some(x) {
      CurrencyIs(entry, x);
    }
  }

  /** Two profiles agree on their account when both have one and they are the same without blanks, and on
      their money when amount and currency are both given and both the same. */
  lemma ProfilesAgree(a: Profile, b: Profile)
    ensures SameAccount(a, b) <==>
      && BothGiven(a.account, b.account)
      && Filter(NarrowingLaws.Spared({' '}), a.account.value) == Filter(NarrowingLaws.Spared({' '}), b.account.value)
    ensures SameMoney(a, b) <==>
      && a.amount.Some? && b.amount.Some? && a.amount.value == b.amount.value
      && BothGiven(a.currency, b.currency) && a.currency.value == b.currency.value
  {
    if BothGiven(a.account, b.account) {
      NarrowingLaws.WithoutIs(a.account.value, {' '});
      NarrowingLaws.WithoutIs(b.account.value, {' '});
    }
  }
}
