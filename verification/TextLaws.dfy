// What stripping, splitting into words and reading an element's text mean, by the blanks around and between.
module TextLaws {
  import opened Strings
  import opened Words
  import opened XmlTree
  import opened Pacs008

  predicate AllBlank(s: string) { forall i :: 0 <= i < |s| ==> IsSpace(s[i]) }

  // ----- stripping -----

  lemma {:induction false} BlankBefore(s: string, i: nat)
    requires i < |s| - |LStrip(s)|
    ensures IsSpace(s[i])
  {
    if i > 0 {
      BlankBefore(s[1..], i - 1);
    }
  }

  lemma {:induction false} BlankAfter(s: string, i: nat)
    requires |RStrip(s)| <= i < |s|
    ensures IsSpace(s[i])
  {
    if i < |s| - 1 {
      BlankAfter(s[..|s| - 1], i);
    }
  }

  lemma LStripBlanks(pre: string, s: string)
    requires AllBlank(pre) && (s == "" || !IsSpace(s[0]))
    ensures LStrip(pre + s) == s
  {
    var all := pre + s;
    var n := |all| - |LStrip(all)|;
    if |pre| < n {
      BlankBefore(all, |pre|);
      assert false;
    }
    assert n < |all| ==> LStrip(all)[0] == all[n];
    assert forall i :: 0 <= i < |pre| ==> IsSpace(all[i]);
    assert n == |pre|;
  }

  lemma RStripOne(s: string, c: char)
    requires IsSpace(c)
    ensures RStrip(s + [c]) == RStrip(s)
  {
    var all := s + [c];
    assert all[..|all| - 1] == s;
  }

  lemma {:induction false} RStripBlanks(s: string, post: string)
    requires AllBlank(post)
    ensures RStrip(s + post) == RStrip(s)
  {
    if post == "" {
      assert s + post == s;
    } else {
      var n := |post| - 1;
      RStripBlanks(s, post[..n]);
      RStripOne(s + post[..n], post[n]);
      assert s + post == (s + post[..n]) + [post[n]];
    }
  }

  /** Whatever blanks surround a trimmed text, stripping gives the text. */
  lemma StripMeans(pre: string, s: string, post: string)
    requires AllBlank(pre) && AllBlank(post) && Trimmed(s)
    ensures Strip(pre + s + post) == s
  {
    if s == "" {
      LStripBlanks(pre + post, "");
      assert pre + s + post == (pre + post) + "";
    } else {
      Regroup(pre, s, post);
      LStripBlanks(pre, s + post);
      RStripBlanks(s, post);
    }
  }

  lemma BeforeStripped(s: string) returns (pre: string)
    ensures AllBlank(pre) && s == pre + LStrip(s)
  {
    pre := s[..|s| - |LStrip(s)|];
    forall i | 0 <= i < |pre| ensures IsSpace(pre[i]) {
      BlankBefore(s, i);
    }
  }

  lemma AfterStripped(s: string) returns (post: string)
    ensures AllBlank(post) && s == RStrip(s) + post
  {
    post := s[|RStrip(s)|..];
    forall i | 0 <= i < |post| ensures IsSpace(post[i]) {
      BlankAfter(s, |RStrip(s)| + i);
    }
  }

  /** Every text is its stripped form within blanks. */
  lemma StripLeaves(s: string) returns (pre: string, post: string)
    ensures AllBlank(pre) && AllBlank(post) && s == pre + Strip(s) + post && Trimmed(Strip(s))
  {
    pre := BeforeStripped(s);
    post := AfterStripped(LStrip(s));
    Regroup(pre, Strip(s), post);
  }

  // ----- words -----

  /** A word before a blank or the end is the first word of the text, and blanks before it do not count. */
  lemma {:induction false} WordsMean(pre: string, w: string, rest: string)
    requires AllBlank(pre) && IsWord(w) && (rest == "" || IsSpace(rest[0]))
    ensures SplitWords(pre + w + rest) == [w] + SplitWords(rest)
  {
    if pre == "" {
      assert pre + w + rest == w + rest;
      SplitFirstWord(w, rest);
    } else {
      WordsMean(pre[1..], w, rest);
      assert (pre + w + rest)[1..] == pre[1..] + w + rest && (pre + w + rest)[0] == pre[0];
    }
  }

  lemma {:induction false} BlankHasNoWords(s: string)
    requires AllBlank(s)
    ensures SplitWords(s) == []
  {
    if s != "" {
      BlankHasNoWords(s[1..]);
    }
  }

  // ----- the text of an element -----

  /** `x` is what the element says: its text within blanks. */
  ghost predicate Says(t: Tree, el: Id, x: string) {
    && el in t.text && t.text[el].Some? && x != "" && Trimmed(x)
    && exists pre, post :: AllBlank(pre) && AllBlank(post) && t.text[el].value == pre + x + post
  }

  /** The adapter reads what an element says, and nothing of an absent or blank one. */
  lemma TextMeans(t: Tree, el: Option<Id>, x: string)
    ensures Text(t, el) == Some(x) <==> el.Some? && Says(t, el.value, x)
  {
    if el.Some? && el.value in t.text && t.text[el.value].Some? {
      var raw := t.text[el.value].value;
      var pre, post := StripLeaves(raw);
      if Says(t, el.value, x) {
        var b, a :| AllBlank(b) && AllBlank(a) && raw == b + x + a;
        StripMeans(b, x, a);
      }
    }
  }

  lemma TextsCons(t: Tree, el: Id, rest: seq<Id>)
    ensures Texts(t, [el] + rest) == (if Text(t, Some(el)).Some? then [Text(t, Some(el)).value] else []) + Texts(t, rest)
  {
    var all := [el] + rest;
    assert all[1..] == rest;
  }

  lemma {:induction false} TextsAppend(t: Tree, a: seq<Id>, b: seq<Id>)
    ensures Texts(t, a + b) == Texts(t, a) + Texts(t, b)
  {
    if a == [] {
      assert a + b == b;
    } else {
      var el, rest := a[0], a[1..];
      TextsAppend(t, rest, b);
      TextsCons(t, el, rest);
      TextsCons(t, el, rest + b);
      assert a + b == [el] + (rest + b) && a == [el] + rest;
      Regroup(if Text(t, Some(el)).Some? then [Text(t, Some(el)).value] else [], Texts(t, rest), Texts(t, b));
    }
  }

  /** The lines of a list of elements, in order: what the next element says is the next line, and one that
      says nothing adds none. */
  lemma LinesMean(t: Tree, els: seq<Id>, el: Id, x: string)
    ensures Texts(t, []) == []
    ensures Says(t, el, x) ==> Texts(t, els + [el]) == Texts(t, els) + [x]
    ensures (forall y :: !Says(t, el, y)) ==> Texts(t, els + [el]) == Texts(t, els)
  {
    TextsAppend(t, els, [el]);
    TextsCons(t, el, []);
    assert [el] + [] == [el];
    TextMeans(t, Some(el), x);
    if Text(t, Some(el)).Some? {
      TextMeans(t, Some(el), Text(t, Some(el)).value);
    }
  }
}
