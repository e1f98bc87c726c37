// String primitives shared by the XML paths, the address heuristics and the source selectors:
// separators, Python's whitespace, and decimal numerals.
module Strings {
  datatype Option<+T> = None | Some(value: T)

  // ----- separators -----

  /** Index of the first `d` in `s`, or |s| when there is none. */
  function Find(s: string, d: char): (i: nat)
    ensures i <= |s|
    ensures i < |s| ==> s[i] == d
  {
    if s == "" || s[0] == d then 0 else Find(s[1..], d) + 1
  }

  lemma {:induction false} FindIsFirst(s: string, d: char, k: nat)
    requires k < Find(s, d)
    ensures s[k] != d
  {
    if k > 0 {
      FindIsFirst(s[1..], d, k - 1);
    }
  }

  /** Python's `s.split(d)` for a one-character separator: always at least one piece. */
  function Split(s: string, d: char): (pieces: seq<string>)
    ensures |pieces| > 0
    decreases |s|
  {
    var i := Find(s, d);
    if i == |s| then [s] else [s[..i]] + Split(s[i + 1..], d)
  }

  lemma {:induction false} SplitPieces(s: string, d: char)
    ensures forall p :: p in Split(s, d) ==> d !in p
    decreases |s|
  {
    var i := Find(s, d);
    assert d !in s[..i] by {
      forall k | 0 <= k < i ensures s[k] != d {
        FindIsFirst(s, d, k);
      }
    }
    if i < |s| {
      SplitPieces(s[i + 1..], d);
    } else {
      assert s[..i] == s;
    }
  }

  /** Python's `d.join(pieces)`. */
  function Join(pieces: seq<string>, d: string): string {
    if |pieces| == 0 then ""
    else if |pieces| == 1 then pieces[0]
    else pieces[0] + d + Join(pieces[1..], d)
  }

  lemma {:induction false} FindAfter(a: string, d: char, rest: string)
    requires d !in a
    ensures Find(a + [d] + rest, d) == |a|
  {
    if a != "" {
      assert (a + [d] + rest)[1..] == a[1..] + [d] + rest;
      FindAfter(a[1..], d, rest);
    }
  }

  lemma {:induction false} FindNone(a: string, d: char)
    requires d !in a
    ensures Find(a, d) == |a|
  {
    if a != "" {
      FindNone(a[1..], d);
    }
  }

  /** The first separator ends the first piece. */
  lemma SplitCons(a: string, d: char, rest: string)
    requires d !in a
    ensures Split(a + [d] + rest, d) == [a] + Split(rest, d)
  {
    FindAfter(a, d, rest);
    var s := a + [d] + rest;
    assert s[..|a|] == a && s[|a| + 1..] == rest;
  }

  lemma SplitPlain(a: string, d: char)
    requires d !in a
    ensures Split(a, d) == [a]
  {
    FindNone(a, d);
  }

  // ----- whitespace -----

  /** The characters Python's `str.isspace` accepts, which `strip` and `split` remove. */
  predicate IsSpace(c: char) {
    var n := c as int;
    || 0x09 <= n <= 0x0D || 0x1C <= n <= 0x20 || n == 0x85 || n == 0xA0 || n == 0x1680
    || 0x2000 <= n <= 0x200A || n == 0x2028 || n == 0x2029 || n == 0x202F || n == 0x205F || n == 0x3000
  }

  /** Nothing to strip on either side. */
  predicate Trimmed(s: string) {
    s != "" ==> !IsSpace(s[0]) && !IsSpace(s[|s| - 1])
  }

  function LStrip(s: string): (r: string)
    ensures r != "" ==> !IsSpace(r[0])
    ensures |r| <= |s| && r == s[|s| - |r|..]
    ensures r == "" ==> forall c :: c in s ==> IsSpace(c)
  {
    if s != "" && IsSpace(s[0]) then LStrip(s[1..]) else s
  }

  function RStrip(s: string): (r: string)
    ensures r != "" ==> !IsSpace(r[|r| - 1])
    ensures |r| <= |s| && r == s[..|r|]
    ensures s != "" && !IsSpace(s[0]) ==> r != "" && r[0] == s[0]
  {
    if s != "" && IsSpace(s[|s| - 1]) then RStrip(s[..|s| - 1]) else s
  }

  /** Python's `s.strip()`. */
  function Strip(s: string): (r: string)
    ensures Trimmed(r)
    ensures Trimmed(s) ==> r == s
  {
    RStrip(LStrip(s))
  }

  lemma Regroup<T>(a: seq<T>, b: seq<T>, c: seq<T>)
    ensures a + b + c == a + (b + c)
  {
  }

  // ----- decimal numerals -----

  predicate IsDigit(c: char) { '0' <= c <= '9' }

  predicate AllDigits(s: string) { forall c :: c in s ==> IsDigit(c) }

  function DigitChar(n: nat): (c: char)
    requires n < 10
    ensures IsDigit(c) && c as int - '0' as int == n
  {
    ('0' as int + n) as char
  }

  /** The decimal numeral an f-string prints for a natural number. */
  function Decimal(n: nat): (s: string)
    ensures s != "" && AllDigits(s)
  {
    if n < 10 then [DigitChar(n)] else Decimal(n / 10) + [DigitChar(n % 10)]
  }

  /** Python's `int(s)` on a string of ASCII digits. */
  function ParseDecimal(s: string): nat
    requires AllDigits(s)
  {
    if s == "" then 0
    else
      assert s[|s| - 1] in s;
      ParseDecimal(s[..|s| - 1]) * 10 + (s[|s| - 1] as int - '0' as int)
  }

  lemma {:induction false} ParseOfDecimal(n: nat)
    ensures ParseDecimal(Decimal(n)) == n
  {
    var s := Decimal(n);
    if n < 10 {
      assert s[..|s| - 1] == "";
    } else {
      assert s[..|s| - 1] == Decimal(n / 10);
      ParseOfDecimal(n / 10);
    }
  }
}
