// Python's whitespace splitting and the whitespace normal form of a string.
module Words {
  import opened Strings

  /** Length of the leading run of non-space characters. */
  function WordLength(s: string): (n: nat)
    ensures n <= |s|
    ensures s != "" && !IsSpace(s[0]) ==> n > 0
  {
    if s == "" || IsSpace(s[0]) then 0 else WordLength(s[1..]) + 1
  }

  /** `s.split()` */
  function SplitWords(s: string): seq<string>
    decreases |s|
  {
    if s == "" then []
    else if IsSpace(s[0]) then SplitWords(s[1..])
    else [s[..WordLength(s)]] + SplitWords(s[WordLength(s)..])
  }

  /** `" ".join(s.split())` */
  function NormalizeWhitespace(s: string): string { Join(SplitWords(s), " ") }

  predicate IsWord(w: string) { w != "" && forall i :: 0 <= i < |w| ==> !IsSpace(w[i]) }

  predicate AllWords(ws: seq<string>) {
    ws == [] || (IsWord(ws[0]) && AllWords(ws[1..]))
  }

  lemma {:induction false} WordLengthIsRun(s: string)
    ensures forall i :: 0 <= i < WordLength(s) ==> !IsSpace(s[i])
  {
    if s != "" && !IsSpace(s[0]) {
      WordLengthIsRun(s[1..]);
    }
  }

  lemma {:induction false} SplitGivesWords(s: string)
    ensures AllWords(SplitWords(s))
    decreases |s|
  {
    if s != "" {
      if IsSpace(s[0]) {
        SplitGivesWords(s[1..]);
      } else {
        WordLengthIsRun(s);
        SplitGivesWords(s[WordLength(s)..]);
      }
    }
  }

  lemma {:induction false} WordLengthOf(w: string, rest: string)
    requires forall i :: 0 <= i < |w| ==> !IsSpace(w[i])
    requires rest == "" || IsSpace(rest[0])
    ensures WordLength(w + rest) == |w|
  {
    if w == "" {
      assert w + rest == rest;
    } else {
      assert (w + rest)[1..] == w[1..] + rest;
      WordLengthOf(w[1..], rest);
    }
  }

  lemma SplitFirstWord(w: string, rest: string)
    requires IsWord(w) && (rest == "" || IsSpace(rest[0]))
    ensures SplitWords(w + rest) == [w] + SplitWords(rest)
  {
    WordLengthOf(w, rest);
    assert (w + rest)[..|w|] == w && (w + rest)[|w|..] == rest;
  }

  /** Splitting joined words recovers them. */
  lemma {:induction false} SplitOfJoin(ws: seq<string>)
    requires AllWords(ws)
    ensures SplitWords(Join(ws, " ")) == ws
  {
    if |ws| == 1 {
      SplitFirstWord(ws[0], "");
      assert ws[0] + "" == ws[0];
    } else if |ws| > 1 {
      var rest := " " + Join(ws[1..], " ");
      SplitOfJoin(ws[1..]);
      assert rest[1..] == Join(ws[1..], " ");
      SplitFirstWord(ws[0], rest);
      assert ws[0] + " " + Join(ws[1..], " ") == ws[0] + rest;
    }
  }

  /** Normalizing whitespace twice changes nothing more. */
  lemma NormalizeIdempotent(s: string)
    ensures NormalizeWhitespace(NormalizeWhitespace(s)) == NormalizeWhitespace(s)
  {
    SplitGivesWords(s);
    SplitOfJoin(SplitWords(s));
  }

  lemma {:induction false} JoinTrimmed(ws: seq<string>)
    requires AllWords(ws)
    ensures ws != [] ==> Join(ws, " ") != ""
    ensures ws != [] ==> !IsSpace(Join(ws, " ")[0]) && !IsSpace(Join(ws, " ")[|Join(ws, " ")| - 1])
  {
    if |ws| > 1 {
      JoinTrimmed(ws[1..]);
    }
  }

  /** A trimmed, non-empty string normalizes to a trimmed, non-empty string. */
  lemma NormalizeTrimmed(s: string)
    ensures Trimmed(NormalizeWhitespace(s))
    ensures s != "" && Trimmed(s) ==> NormalizeWhitespace(s) != ""
  {
    SplitGivesWords(s);
    JoinTrimmed(SplitWords(s));
  }
}
