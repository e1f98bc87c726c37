// The restricted JSONPath of the mapping engine: its tokenizer and its resolver.
module Selectors {
  import opened Strings

  datatype Token = Key(name: string) | Index(position: nat) | Wildcard

  /** A JSON value; an object lists its members in order. */
  datatype Json = Object(fields: seq<(string, Json)>) | Array(items: seq<Json>) | Scalar(text: string) | Null

  // ----- the tokenizer -----

  /** `[A-Za-z0-9_\-]` */
  predicate IsKeyChar(c: char) {
    'A' <= c <= 'Z' || 'a' <= c <= 'z' || '0' <= c <= '9' || c == '_' || c == '-'
  }

  predicate IsKey(s: string) { s != "" && forall i :: 0 <= i < |s| ==> IsKeyChar(s[i]) }

  function KeyRun(s: string): (n: nat)
    ensures n <= |s|
    ensures s != "" && IsKeyChar(s[0]) ==> n > 0
  {
    if s == "" || !IsKeyChar(s[0]) then 0 else KeyRun(s[1..]) + 1
  }

  function DigitRun(s: string): (n: nat)
    ensures n <= |s| && AllDigits(s[..n])
  {
    if s == "" || !IsDigit(s[0]) then 0
    else
      assert s[..DigitRun(s[1..]) + 1] == [s[0]] + s[1..][..DigitRun(s[1..])];
      DigitRun(s[1..]) + 1
  }

  /** The two capture groups of one match of the token pattern. */
  datatype Match = Match(key: string, index: Digits)

  type Digits = s: string | AllDigits(s)

  predicate WildcardAt(s: string) { |s| >= 3 && s[0] == '[' && s[1] == '*' && s[2] == ']' }

  predicate IndexAt(s: string) {
    s != "" && s[0] == '[' && DigitRun(s[1..]) > 0 && DigitRun(s[1..]) + 1 < |s| && s[DigitRun(s[1..]) + 1] == ']'
  }

  /** What the scan consumes at the head of `s`: a match, or one character that starts none. */
  function StepLength(s: string): (n: nat)
    requires s != ""
    ensures 0 < n <= |s|
  {
    if IsKeyChar(s[0]) then KeyRun(s)
    else if WildcardAt(s) then 3
    else if IndexAt(s) then DigitRun(s[1..]) + 2
    else 1
  }

  function StepMatch(s: string): seq<Match>
    requires s != ""
  {
    if IsKeyChar(s[0]) then [Match(s[..KeyRun(s)], "")]
    else if WildcardAt(s) then [Match("", "")]
    else if IndexAt(s) then [Match("", s[1..][..DigitRun(s[1..])])]
    else []
  }

  /** All matches from left to right. */
  function Matches(s: string): seq<Match>
    decreases |s|
  {
    if s == "" then [] else StepMatch(s) + Matches(s[StepLength(s)..])
  }

  function TokenOf(m: Match): Token
  {
    if m.key != "" then Key(m.key) else if m.index != "" then Index(ParseDecimal(m.index)) else Wildcard
  }

  function TokensOf(ms: seq<Match>): seq<Token>
  {
    if ms == [] then [] else TokensOf(ms[..|ms| - 1]) + [TokenOf(ms[|ms| - 1])]
  }

  function Tokens(path: string): seq<Token> { TokensOf(Matches(path)) }

  /** `_tokenize` */
  method Tokenize(path: string) returns (tokens: seq<Token>)
    ensures tokens == Tokens(path)
  {
    tokens := [];
    var parts := Matches(path);
    for i := 0 to |parts|
      invariant tokens == TokensOf(parts[..i])
    {
      assert parts[..i + 1][..i] == parts[..i];
      if parts[i].key != "" {
        tokens := tokens + [Key(parts[i].key)];
      } else if parts[i].index != "" {
        tokens := tokens + [Index(ParseDecimal(parts[i].index))];
      } else {
        tokens := tokens + [Wildcard];
      }
    }
    assert parts[..|parts|] == parts;
  }

  lemma {:induction false} TokensOfAppend(a: seq<Match>, b: seq<Match>)
    ensures TokensOf(a + b) == TokensOf(a) + TokensOf(b)
  {
    if b == [] {
      assert a + b == a;
    } else {
      assert (a + b)[..|a + b| - 1] == a + b[..|b| - 1];
      TokensOfAppend(a, b[..|b| - 1]);
    }
  }

  lemma TokensAfter(first: Match, rest: seq<Match>)
    ensures TokensOf([first] + rest) == [TokenOf(first)] + TokensOf(rest)
  {
    TokensOfAppend([first], rest);
    assert [first][..0] == [];
  }

  // ----- the printed form -----

  function PrintToken(t: Token): string {
    match t
    case Key(name) => "." + name
    case Index(position) => "[" + (Decimal(position) + "]")
    case Wildcard => "[*]"
  }

  function PrintSteps(ts: seq<Token>): string {
    if ts == [] then "" else PrintToken(ts[0]) + PrintSteps(ts[1..])
  }

  /** The documented form of a path: `$.a.b[*].c[0]`. */
  function Print(ts: seq<Token>): string { "$" + PrintSteps(ts) }

  predicate ValidKeys(ts: seq<Token>) {
    ts == [] || ((ts[0].Key? ==> IsKey(ts[0].name)) && ValidKeys(ts[1..]))
  }

  lemma {:induction false} KeyRunOf(key: string, rest: string)
    requires forall i :: 0 <= i < |key| ==> IsKeyChar(key[i])
    requires rest == "" || !IsKeyChar(rest[0])
    ensures KeyRun(key + rest) == |key|
  {
    if key == "" {
      assert key + rest == rest;
    } else {
      assert (key + rest)[1..] == key[1..] + rest;
      KeyRunOf(key[1..], rest);
    }
  }

  lemma {:induction false} DigitRunOf(digits: string, rest: string)
    requires AllDigits(digits) && (rest == "" || !IsDigit(rest[0]))
    ensures DigitRun(digits + rest) == |digits|
  {
    if digits == "" {
      assert digits + rest == rest;
    } else {
      assert (digits + rest)[1..] == digits[1..] + rest;
      assert digits[0] in digits;
      DigitRunOf(digits[1..], rest);
    }
  }

  lemma NoSpan(ts: seq<Token>)
    ensures PrintSteps(ts) == "" || !IsKeyChar(PrintSteps(ts)[0])
  {
  }

  lemma KeyTokens(key: string, rest: string)
    requires IsKey(key) && (rest == "" || !IsKeyChar(rest[0]))
    ensures Tokens(key + rest) == [Key(key)] + Tokens(rest)
  {
    KeyRunOf(key, rest);
    assert (key + rest)[..|key|] == key && (key + rest)[|key|..] == rest;
    TokensAfter(Match(key, ""), Matches(rest));
  }

  lemma IndexTokens(n: nat, rest: string)
    ensures Tokens("[" + (Decimal(n) + "]") + rest) == [Index(n)] + Tokens(rest)
  {
    var d := Decimal(n);
    var s := "[" + (d + "]") + rest;
    assert s[1..] == d + ("]" + rest);
    DigitRunOf(d, "]" + rest);
    assert d[0] in d;
    assert s[1] == d[0];
    assert s[1..][..|d|] == d && s[|d| + 2..] == rest && s[|d| + 1] == ']';
    TokensAfter(Match("", d), Matches(rest));
    ParseOfDecimal(n);
  }

  lemma WildcardTokens(rest: string)
    ensures Tokens("[*]" + rest) == [Wildcard] + Tokens(rest)
  {
    var s := "[*]" + rest;
    assert s[3..] == rest;
    TokensAfter(Match("", ""), Matches(rest));
  }

  lemma SkipTokens(c: char, rest: string)
    requires !IsKeyChar(c) && c != '['
    ensures Tokens([c] + rest) == Tokens(rest)
  {
    assert ([c] + rest)[1..] == rest;
    assert [] + Matches(rest) == Matches(rest);
  }

  lemma DotKeyTokens(name: string, rest: string)
    requires IsKey(name) && (rest == "" || !IsKeyChar(rest[0]))
    ensures Tokens("." + name + rest) == [Key(name)] + Tokens(rest)
  {
    SkipTokens('.', name + rest);
    assert ['.'] + (name + rest) == "." + name + rest;
    KeyTokens(name, rest);
  }

  lemma PrintedToken(t: Token, rest: string)
    requires t.Key? ==> IsKey(t.name)
    requires rest == "" || !IsKeyChar(rest[0])
    ensures Tokens(PrintToken(t) + rest) == [t] + Tokens(rest)
  {
    match t
    case Key(name) => DotKeyTokens(name, rest);
    case Index(position) => IndexTokens(position, rest);
    case Wildcard => WildcardTokens(rest);
  }

  lemma {:induction false} StepsTokens(ts: seq<Token>)
    requires ValidKeys(ts)
    ensures Tokens(PrintSteps(ts)) == ts
  {
    if ts != [] {
      var rest := PrintSteps(ts[1..]);
      StepsTokens(ts[1..]);
      NoSpan(ts[1..]);
      PrintedToken(ts[0], rest);
    }
  }

  /** Tokenizing a printed path gives back its tokens. */
  lemma TokensOfPrint(ts: seq<Token>)
    requires ValidKeys(ts)
    ensures Tokens(Print(ts)) == ts
  {
    SkipTokens('$', PrintSteps(ts));
    StepsTokens(ts);
  }

  // ----- joining two paths with a dot -----

  lemma {:induction false} KeyRunStops(p: string, q: string)
    ensures KeyRun(p + ("." + q)) == KeyRun(p)
  {
    var s := p + ("." + q);
    if p == "" {
      assert s[0] == '.';
    } else {
      assert s[1..] == p[1..] + ("." + q);
      KeyRunStops(p[1..], q);
    }
  }

  lemma {:induction false} DigitRunStops(p: string, q: string)
    ensures DigitRun(p + ("." + q)) == DigitRun(p)
  {
    var s := p + ("." + q);
    if p == "" {
      assert s[0] == '.';
    } else {
      assert s[1..] == p[1..] + ("." + q);
      DigitRunStops(p[1..], q);
    }
  }

  lemma SameStep(p: string, q: string)
    requires p != ""
    ensures var s := p + ("." + q); StepLength(s) == StepLength(p) && StepMatch(s) == StepMatch(p)
  {
    var s := p + ("." + q);
    KeyRunStops(p, q);
    assert s[1..] == p[1..] + ("." + q);
    DigitRunStops(p[1..], q);
    assert forall k :: 0 <= k < |s| ==> s[k] == if k < |p| then p[k] else if k == |p| then '.' else q[k - |p| - 1];
    var n, d := KeyRun(p), DigitRun(p[1..]);
    assert s[..n] == p[..n] && s[1..][..d] == p[1..][..d];
  }

  lemma {:induction false} MatchesJoin(p: string, q: string)
    ensures Matches(p + ("." + q)) == Matches(p) + Matches(q)
    decreases |p|
  {
    if p == "" {
      DotStarts(q);
    } else {
      var rest := p[StepLength(p)..];
      MatchesJoin(rest, q);
      StepThrough(p, q);
      JoinStep(p, q, Matches(p + ("." + q)), Matches(rest + ("." + q)), StepMatch(p), Matches(rest));
    }
  }

  lemma DotStarts(q: string)
    ensures Matches("" + ("." + q)) == Matches("") + Matches(q)
  {
    var s := "" + ("." + q);
    assert s[1..] == q && s[0] == '.';
  }

  lemma StepThrough(p: string, q: string)
    requires p != ""
    ensures Matches(p + ("." + q)) == StepMatch(p) + Matches(p[StepLength(p)..] + ("." + q))
  {
    SameStep(p, q);
    assert (p + ("." + q))[StepLength(p)..] == p[StepLength(p)..] + ("." + q);
  }

  lemma JoinStep(p: string, q: string, whole: seq<Match>, rest: seq<Match>, own: seq<Match>, tail: seq<Match>)
    requires whole == own + rest && rest == tail + Matches(q) && Matches(p) == own + tail
    ensures whole == Matches(p) + Matches(q)
  {
    Regroup(own, tail, Matches(q));
  }

  /** Whatever the two texts, a dot between them separates their tokens. */
  lemma TokensJoin(p: string, q: string)
    ensures Tokens(p + ("." + q)) == Tokens(p) + Tokens(q)
  {
    MatchesJoin(p, q);
    TokensOfAppend(Matches(p), Matches(q));
  }

  // ----- the resolver -----

  function Member(fields: seq<(string, Json)>, name: string): seq<Json> {
    if fields == [] then [] else if fields[0].0 == name then [fields[0].1] else Member(fields[1..], name)
  }

  function Values(fields: seq<(string, Json)>): seq<Json> {
    if fields == [] then [] else [fields[0].1] + Values(fields[1..])
  }

  /** What one token selects from one value. */
  function Select(t: Token, item: Json): seq<Json> {
    match t
    case Key(name) => if item.Object? then Member(item.fields, name) else []
    case Index(position) => if item.Array? && position < |item.items| then [item.items[position]] else []
    case Wildcard => if item.Array? then item.items else if item.Object? then Values(item.fields) else []
  }

  function SelectAll(t: Token, items: seq<Json>): seq<Json> {
    if items == [] then [] else SelectAll(t, items[..|items| - 1]) + Select(t, items[|items| - 1])
  }

  function Walk(ts: seq<Token>, items: seq<Json>): seq<Json> {
    if ts == [] then items else SelectAll(ts[|ts| - 1], Walk(ts[..|ts| - 1], items))
  }

  function Resolve(data: Json, path: string): seq<Json> { Walk(Tokens(path), [data]) }

  /** One token applied to every current value. */
  method ApplyToken(token: Token, current: seq<Json>) returns (nxt: seq<Json>)
    ensures nxt == SelectAll(token, current)
  {
    nxt := [];
    for k := 0 to |current|
      invariant nxt == SelectAll(token, current[..k])
    {
      assert current[..k + 1][..k] == current[..k];
      var item := current[k];
      match token {
        case Key(name) =>
          if item.Object? {
            nxt := nxt + Member(item.fields, name);
          }
        case Index(position) =>
          if item.Array? && position < |item.items| {
            nxt := nxt + [item.items[position]];
          }
        case Wildcard =>
          if item.Array? {
            nxt := nxt + item.items;
          } else if item.Object? {
            nxt := nxt + Values(item.fields);
          }
      }
    }
    assert current[..|current|] == current;
  }

  /** `resolve_json_path` */
  method ResolveJsonPath(data: Json, path: string) returns (current: seq<Json>)
    ensures current == Resolve(data, path)
  {
    var tokens := Tokenize(path);
    current := [data];
    for i := 0 to |tokens|
      invariant current == Walk(tokens[..i], [data])
    {
      current := ApplyToken(tokens[i], current);
      assert tokens[..i + 1][..i] == tokens[..i];
    }
    assert tokens[..|tokens|] == tokens;
  }

  lemma {:induction false} SelectAllAppend(t: Token, a: seq<Json>, b: seq<Json>)
    ensures SelectAll(t, a + b) == SelectAll(t, a) + SelectAll(t, b)
  {
    if b == [] {
      assert a + b == a;
    } else {
      var front, last := b[..|b| - 1], b[|b| - 1];
      SelectAllAppend(t, a, front);
      assert b == front + [last];
      SelectAllStep(t, a, front, last);
    }
  }

  lemma SelectAllStep(t: Token, a: seq<Json>, front: seq<Json>, last: Json)
    requires SelectAll(t, a + front) == SelectAll(t, a) + SelectAll(t, front)
    ensures SelectAll(t, a + (front + [last])) == SelectAll(t, a) + SelectAll(t, front + [last])
  {
    SelectAllLast(t, a + front, last);
    Regroup(a, front, [last]);
    SelectAllLast(t, front, last);
    Regroup(SelectAll(t, a), SelectAll(t, front), Select(t, last));
  }

  lemma SelectAllLast(t: Token, items: seq<Json>, last: Json)
    ensures SelectAll(t, items + [last]) == SelectAll(t, items) + Select(t, last)
  {
    assert (items + [last])[..|items + [last]| - 1] == items;
  }

  lemma {:induction false} WalkItemsAppend(ts: seq<Token>, a: seq<Json>, b: seq<Json>)
    ensures Walk(ts, a + b) == Walk(ts, a) + Walk(ts, b)
  {
    if ts != [] {
      var front := ts[..|ts| - 1];
      WalkItemsAppend(front, a, b);
      SelectAllAppend(ts[|ts| - 1], Walk(front, a), Walk(front, b));
    }
  }

  lemma {:induction false} WalkTokensAppend(ts: seq<Token>, us: seq<Token>, items: seq<Json>)
    ensures Walk(ts + us, items) == Walk(us, Walk(ts, items))
  {
    if us == [] {
      assert ts + us == ts;
    } else {
      assert (ts + us)[..|ts + us| - 1] == ts + us[..|us| - 1];
      WalkTokensAppend(ts, us[..|us| - 1], items);
    }
  }

  /** Each value in turn, resolved on its own. */
  function ResolveEach(items: seq<Json>, path: string): seq<Json> {
    if items == [] then [] else ResolveEach(items[..|items| - 1], path) + Resolve(items[|items| - 1], path)
  }

  lemma {:induction false} WalkNothing(ts: seq<Token>)
    ensures Walk(ts, []) == []
  {
    if ts != [] {
      WalkNothing(ts[..|ts| - 1]);
    }
  }

  lemma {:induction false} WalkEach(items: seq<Json>, path: string)
    ensures Walk(Tokens(path), items) == ResolveEach(items, path)
  {
    if items == [] {
      WalkNothing(Tokens(path));
    } else {
      var front, last := items[..|items| - 1], items[|items| - 1];
      assert items == front + [last];
      WalkItemsAppend(Tokens(path), front, [last]);
      WalkEach(front, path);
    }
  }

  /** Resolving a joined path resolves the suffix on each value of the prefix, in order. */
  lemma ResolveJoin(data: Json, p: string, q: string)
    ensures Resolve(data, p + ("." + q)) == ResolveEach(Resolve(data, p), q)
  {
    TokensJoin(p, q);
    WalkTokensAppend(Tokens(p), Tokens(q), [data]);
    WalkEach(Resolve(data, p), q);
  }

  /** A path without a wildcard denotes at most one value. */
  lemma {:induction false} WalkAtMostOne(ts: seq<Token>, items: seq<Json>)
    requires Wildcard !in ts && |items| <= 1
    ensures |Walk(ts, items)| <= 1
  {
    if ts != [] {
      WalkAtMostOne(ts[..|ts| - 1], items);
      var before := Walk(ts[..|ts| - 1], items);
      assert Walk(ts, items) == SelectAll(ts[|ts| - 1], before);
      if before != [] {
        assert before == [] + [before[0]];
        SelectAllLast(ts[|ts| - 1], [], before[0]);
        SelectAtMostOne(ts[|ts| - 1], before[0]);
      }
    }
  }

  lemma SelectAtMostOne(t: Token, item: Json)
    requires t != Wildcard
    ensures |Select(t, item)| <= 1
  {
    if t.Key? && item.Object? {
      MemberAtMostOne(item.fields, t.name);
    }
  }

  lemma {:induction false} MemberAtMostOne(fields: seq<(string, Json)>, name: string)
    ensures |Member(fields, name)| <= 1
  {
    if fields != [] {
      MemberAtMostOne(fields[1..], name);
    }
  }

  lemma {:induction false} NoStarNoWildcard(path: string)
    requires '*' !in path
    ensures Wildcard !in Tokens(path)
    decreases |path|
  {
    if path != "" {
      var n, first := StepLength(path), StepMatch(path);
      assert '*' !in path[n..];
      NoStarNoWildcard(path[n..]);
      if first != [] {
        assert first == [first[0]];
        TokensAfter(first[0], Matches(path[n..]));
        StepIsNoWildcard(path);
      } else {
        assert [] + Matches(path[n..]) == Matches(path[n..]);
      }
    }
  }

  lemma StepIsNoWildcard(s: string)
    requires s != "" && '*' !in s && StepMatch(s) != []
    ensures TokenOf(StepMatch(s)[0]) != Wildcard
  {
    if !IsKeyChar(s[0]) && IndexAt(s) {
      assert s[1..][..DigitRun(s[1..])] != "";
    }
  }

  /** A path text without `*` resolves to at most one value, whatever the data. */
  lemma ResolveAtMostOne(data: Json, path: string)
    requires '*' !in path
    ensures |Resolve(data, path)| <= 1
  {
    NoStarNoWildcard(path);
    WalkAtMostOne(Tokens(path), [data]);
  }
}
