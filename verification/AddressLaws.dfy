// What the address provider resolves, in terms of the fields and the comma-separated tokens of the lines.
module AddressLaws {
  import opened Strings
  import opened Words
  import opened Pacs008
  import opened CloudNova

  // ----- the first that says something -----

  ghost predicate Silent<T(!new), R(!new)>(x: T, says: (T, R) -> bool) { forall r :: !says(x, r) }

  /** The first element that says anything says `r`. */
  ghost predicate FirstSays<T(!new), R(!new)>(xs: seq<T>, says: (T, R) -> bool, r: R) {
    exists i :: 0 <= i < |xs| && says(xs[i], r) && forall j :: 0 <= j < i ==> Silent(xs[j], says)
  }

  lemma FirstOrLater<T(!new), R(!new)>(xs: seq<T>, says: (T, R) -> bool, r: R)
    requires xs != []
    ensures FirstSays(xs, says, r) <==> says(xs[0], r) || (Silent(xs[0], says) && FirstSays(xs[1..], says, r))
  {
    var rest := xs[1..];
    if FirstSays(xs, says, r) {
      var i :| 0 <= i < |xs| && says(xs[i], r) && forall j :: 0 <= j < i ==> Silent(xs[j], says);
      if i > 0 {
        assert rest[i - 1] == xs[i] && forall j :: 0 <= j < i - 1 ==> rest[j] == xs[j + 1];
      }
    }
    if Silent(xs[0], says) && FirstSays(rest, says, r) {
      var i :| 0 <= i < |rest| && says(rest[i], r) && forall j :: 0 <= j < i ==> Silent(rest[j], says);
      assert xs[i + 1] == rest[i] && forall j :: 1 <= j < i + 1 ==> xs[j] == rest[j - 1];
    }
  }

  // ----- countries in address lines -----

  /** The token stands for the country `code`: as a code, or else as a name. */
  predicate StandsFor(g: Reference, token: string, code: string) {
    var w := NormalizeWhitespace(g.nfkc(token));
    if g.upper(w) in g.codes then code == g.upper(w)
    else g.upper(Strip(w)) in g.names && code == g.names[g.upper(Strip(w))]
  }

  ghost function TokenSays(g: Reference): (string, string) -> bool { (token, code) => StandsFor(g, token, code) }

  /** The line's first token that stands for a country stands for the code. */
  ghost function LineSays(g: Reference): (string, string) -> bool {
    (line, code) => FirstSays(Tokens(line), TokenSays(g), code)
  }

  lemma TokenMeans(g: Reference, token: string, code: string)
    ensures CountryOfToken(g, token) == Some(code) <==> StandsFor(g, token, code)
  {
  }

  lemma {:induction false} TokensMean(g: Reference, tokens: seq<string>, code: string)
    ensures CountryInTokens(g, tokens) == Some(code) <==> FirstSays(tokens, TokenSays(g), code)
  {
    if tokens != [] {
      FirstOrLater(tokens, TokenSays(g), code);
      TokensMean(g, tokens[1..], code);
      forall other ensures TokenSays(g)(tokens[0], other) <==> CountryOfToken(g, tokens[0]) == Some(other) {
        TokenMeans(g, tokens[0], other);
      }
      if CountryOfToken(g, tokens[0]).Some? {
        assert TokenSays(g)(tokens[0], CountryOfToken(g, tokens[0]).value);
      }
    }
  }

  lemma {:induction false} LinesMean(g: Reference, lines: seq<string>, code: string)
    ensures CountryInLines(g, lines) == Some(code) <==> FirstSays(lines, LineSays(g), code)
  {
    if lines != [] {
      var found := CountryInTokens(g, Tokens(lines[0]));
      FirstOrLater(lines, LineSays(g), code);
      LinesMean(g, lines[1..], code);
      forall other ensures LineSays(g)(lines[0], other) <==> found == Some(other) {
        TokensMean(g, Tokens(lines[0]), other);
      }
      if found.Some? {
        assert LineSays(g)(lines[0], found.value);
      }
    }
  }

  // ----- towns in address lines -----

  /** The token is a country of the tables, or the code the address has. */
  predicate IsCountry(g: Reference, token: string, code: Option<string>) {
    var w := NormalizeWhitespace(token);
    || g.upper(w) in g.codes || g.upper(Strip(w)) in g.names
    || (code.Some? && code.value != "" && g.upper(w) == code.value)
  }

  /** Token `k` is a country, and `town`, the token before it, has 2 to 35 characters and starts in upper case. */
  predicate TownAt(g: Reference, tokens: seq<string>, k: int, code: Option<string>, town: string) {
    && 1 <= k < |tokens| && IsCountry(g, tokens[k], code) && town == tokens[k - 1]
    && 2 <= |town| <= 35 && g.isUpper(town[0])
  }

  ghost predicate NoTownAt(g: Reference, tokens: seq<string>, k: int, code: Option<string>) {
    forall town :: !TownAt(g, tokens, k, code, town)
  }

  ghost predicate NoTownBefore(g: Reference, tokens: seq<string>, k: int, code: Option<string>) {
    forall j :: j < k ==> NoTownAt(g, tokens, j, code)
  }

  ghost predicate TokensGive(g: Reference, tokens: seq<string>, code: Option<string>, town: string) {
    exists k :: TownAt(g, tokens, k, code, town) && NoTownBefore(g, tokens, k, code)
  }

  /** The line's first such token is the town. */
  ghost function LineGives(g: Reference, code: Option<string>): (string, string) -> bool {
    (line, town) => TokensGive(g, Tokens(line), code, town)
  }

  lemma TownBeforeMeans(g: Reference, tokens: seq<string>, k: nat, code: Option<string>)
    requires k < |tokens|
    ensures TownBefore(g, tokens, k, code) ==> k > 0 && TownAt(g, tokens, k, code, tokens[k - 1])
    ensures !TownBefore(g, tokens, k, code) ==> NoTownAt(g, tokens, k, code)
  {
  }

  lemma NoTownAtAll(g: Reference, tokens: seq<string>, code: Option<string>, town: string)
    requires NoTownBefore(g, tokens, |tokens|, code)
    ensures !TokensGive(g, tokens, code, town)
  {
    forall l ensures !TownAt(g, tokens, l, code, town) {
      assert l < |tokens| ==> NoTownAt(g, tokens, l, code);
    }
  }

  lemma {:induction false} TownsMean(g: Reference, tokens: seq<string>, k: nat, code: Option<string>, town: string)
    requires k <= |tokens| && NoTownBefore(g, tokens, k, code)
    ensures TownInTokens(g, tokens, k, code) == Some(town) <==> TokensGive(g, tokens, code, town)
    decreases |tokens| - k
  {
    if k == |tokens| {
      NoTownAtAll(g, tokens, code, town);
    } else {
      TownBeforeMeans(g, tokens, k, code);
      if TownBefore(g, tokens, k, code) {
        FirstTownIs(g, tokens, k, code, town);
      } else {
        assert NoTownBefore(g, tokens, k + 1, code);
        TownsMean(g, tokens, k + 1, code, town);
      }
    }
  }

  lemma FirstTownIs(g: Reference, tokens: seq<string>, k: nat, code: Option<string>, town: string)
    requires 0 < k < |tokens| && TownAt(g, tokens, k, code, tokens[k - 1]) && NoTownBefore(g, tokens, k, code)
    ensures TokensGive(g, tokens, code, town) <==> town == tokens[k - 1]
  {
    if TokensGive(g, tokens, code, town) {
      var l :| TownAt(g, tokens, l, code, town) && NoTownBefore(g, tokens, l, code);
      assert l < k ==> NoTownAt(g, tokens, l, code);
      assert k < l ==> NoTownAt(g, tokens, k, code);
    }
  }

  lemma {:induction false} TownLinesMean(g: Reference, lines: seq<string>, code: Option<string>, town: string)
    ensures TownInLines(g, lines, code) == Some(town) <==> FirstSays(lines, LineGives(g, code), town)
  {
    if lines != [] {
      var found := TownInTokens(g, Tokens(lines[0]), 0, code);
      FirstOrLater(lines, LineGives(g, code), town);
      TownLinesMean(g, lines[1..], code, town);
      forall other ensures LineGives(g, code)(lines[0], other) <==> found == Some(other) {
        TownsMean(g, Tokens(lines[0]), 0, code, other);
      }
      if found.Some? {
        assert LineGives(g, code)(lines[0], found.value);
      }
    }
  }

  // ----- the provider -----

  /** A country field that is given decides alone: a known code, or else a known name. */
  predicate FieldNames(g: Reference, country: string, code: string) {
    if country in g.codes then code == g.upper(country)
    else g.upper(Strip(country)) in g.names && code == g.names[g.upper(Strip(country))]
  }

  ghost predicate ResolvesCountry(g: Reference, a: PostalAddress, code: string) {
    if a.country.Some? && a.country.value != "" then FieldNames(g, a.country.value, code)
    else FirstSays(a.addressLines, LineSays(g), code)
  }

  ghost predicate ResolvesTown(g: Reference, a: PostalAddress, code: Option<string>, town: string) {
    if a.townName.Some? && NormalizeWhitespace(a.townName.value) != "" then town == NormalizeWhitespace(a.townName.value)
    else FirstSays(a.addressLines, LineGives(g, code), town)
  }

  /** What the provider resolves: the country of the field, or, only where that is blank, of the first token
      of the lines that stands for one; the town of the field, or, only where that is blank, the first token
      that stands before a country token and looks like a town. */
  lemma ProviderMeans(g: Reference, a: PostalAddress)
    ensures var r := Provider(g)(a);
      && (forall code :: r.countryCode == Some(code) <==> ResolvesCountry(g, a, code))
      && (forall town :: r.townName == Some(town) <==> ResolvesTown(g, a, r.countryCode, town))
  {
    forall code ensures CountryCode(g, a) == Some(code) <==> ResolvesCountry(g, a, code) {
      LinesMean(g, a.addressLines, code);
    }
    BlankTown(a);
    forall town ensures TownName(g, a) == Some(town) <==> ResolvesTown(g, a, CountryCode(g, a), town) {
      TownLinesMean(g, a.addressLines, CountryCode(g, a), town);
    }
  }

  lemma BlankTown(a: PostalAddress)
    ensures Present(SourceTown(a)) <==> a.townName.Some? && NormalizeWhitespace(a.townName.value) != ""
  {
    assert NormalizeWhitespace("") == "";
  }

  /** Readiness in terms of the fields and of what the provider resolves. */
  lemma ReadinessMeans(g: Reference, a: PostalAddress)
    ensures var r, readiness := Provider(g)(a), ReadinessOf(g, a);
      var country := a.country.Some? && a.country.value != "" && a.country.value in g.codes;
      var town := a.townName.Some? && NormalizeWhitespace(a.townName.value) != "";
      var derived := (!country && r.countryCode.Some?) || (!town && r.townName.Some?);
      var anything := (a.country.Some? && a.country.value != "") || town || a.addressLines != [];
      && (readiness == Ready <==> country && town)
      && (readiness == Repairable <==> !(country && town) && derived)
      && (readiness == ReviewRequired <==> !(country && town) && !derived && anything)
      && (readiness == Unresolved <==> !derived && !anything)
  {
    BlankTown(a);
  }
}
