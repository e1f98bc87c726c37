// The contract of Python's `sorted`: ordered by a key, and elements with the same key keep
// their relative order. StableSort is one function with that contract; SortedIsUnique shows it
// is the only one.
module Sorting {
  function Filter<T>(p: T -> bool, s: seq<T>): seq<T> {
    if s == [] then []
    else if p(s[0]) then [s[0]] + Filter(p, s[1..])
    else Filter(p, s[1..])
  }

  lemma {:induction false} FilterMembers<T(!new)>(p: T -> bool, s: seq<T>)
    ensures forall x :: x in Filter(p, s) <==> x in s && p(x)
  {
    if s != [] {
      FilterMembers(p, s[1..]);
    }
  }

  lemma FilterCons<T>(p: T -> bool, x: T, s: seq<T>)
    ensures Filter(p, [x] + s) == (if p(x) then [x] else []) + Filter(p, s)
  {
    assert ([x] + s)[1..] == s;
  }

  lemma {:induction false} FilterAppend<T(!new)>(p: T -> bool, s: seq<T>, t: seq<T>)
    ensures Filter(p, s + t) == Filter(p, s) + Filter(p, t)
  {
    if s == [] {
      assert s + t == t;
    } else {
      FilterAppend(p, s[1..], t);
      FilterCons(p, s[0], s[1..] + t);
      assert s + t == [s[0]] + (s[1..] + t);
    }
  }

  lemma {:induction false} FilterAgrees<T(!new)>(p: T -> bool, q: T -> bool, s: seq<T>)
    requires forall x :: x in s ==> p(x) == q(x)
    ensures Filter(p, s) == Filter(q, s)
  {
    if s != [] {
      FilterAgrees(p, q, s[1..]);
    }
  }

  ghost predicate Sorted<T(!new)>(s: seq<T>, key: T -> int) {
    forall i, j :: 0 <= i < j < |s| ==> key(s[i]) <= key(s[j])
  }

  function Insert<T(!new)>(x: T, s: seq<T>, key: T -> int): seq<T> {
    if s == [] || key(x) <= key(s[0]) then [x] + s else [s[0]] + Insert(x, s[1..], key)
  }

  /** `sorted(s, key=key)`. */
  function StableSort<T(!new)>(s: seq<T>, key: T -> int): seq<T> {
    if s == [] then [] else Insert(s[0], StableSort(s[1..], key), key)
  }

  lemma {:induction false} InsertMembers<T(!new)>(x: T, s: seq<T>, key: T -> int)
    ensures forall y :: y in Insert(x, s, key) <==> y == x || y in s
  {
    if !(s == [] || key(x) <= key(s[0])) {
      InsertMembers(x, s[1..], key);
    }
  }

  lemma {:induction false} SortMembers<T(!new)>(s: seq<T>, key: T -> int)
    ensures forall y :: y in StableSort(s, key) <==> y in s
  {
    if s != [] {
      SortMembers(s[1..], key);
      InsertMembers(s[0], StableSort(s[1..], key), key);
    }
  }

  lemma {:induction false} InsertIsSorted<T(!new)>(x: T, s: seq<T>, key: T -> int)
    requires Sorted(s, key)
    ensures Sorted(Insert(x, s, key), key)
  {
    if !(s == [] || key(x) <= key(s[0])) {
      InsertIsSorted(x, s[1..], key);
      InsertMembers(x, s[1..], key);
      var r := Insert(x, s[1..], key);
      forall j | 0 <= j < |r| ensures key(s[0]) <= key(r[j]) {
        assert r[j] in r;
      }
    }
  }

  lemma {:induction false} InsertAdds<T(!new)>(x: T, s: seq<T>, key: T -> int)
    ensures multiset(Insert(x, s, key)) == multiset{x} + multiset(s)
  {
    if !(s == [] || key(x) <= key(s[0])) {
      InsertAdds(x, s[1..], key);
      assert s == [s[0]] + s[1..];
    }
  }

  /** Ordered by the key, and a permutation of the input. */
  lemma {:induction false} SortIsSorted<T(!new)>(s: seq<T>, key: T -> int)
    ensures Sorted(StableSort(s, key), key)
    ensures multiset(StableSort(s, key)) == multiset(s)
    ensures |StableSort(s, key)| == |s|
  {
    if s != [] {
      SortIsSorted(s[1..], key);
      InsertIsSorted(s[0], StableSort(s[1..], key), key);
      InsertAdds(s[0], StableSort(s[1..], key), key);
      assert s == [s[0]] + s[1..];
      assert |multiset(StableSort(s, key))| == |multiset(s)|;
    }
  }

  lemma {:induction false} InsertKeepsOrder<T(!new)>(x: T, s: seq<T>, key: T -> int, p: T -> bool)
    requires forall y, z :: p(y) && p(z) ==> key(y) == key(z)
    ensures Filter(p, Insert(x, s, key)) == Filter(p, [x] + s)
  {
    if !(s == [] || key(x) <= key(s[0])) {
      var rest := Insert(x, s[1..], key);
      InsertKeepsOrder(x, s[1..], key, p);
      FilterCons(p, s[0], rest);
      FilterCons(p, x, s[1..]);
      FilterCons(p, x, s);
      FilterCons(p, s[0], s[1..]);
      assert s == [s[0]] + s[1..];
      assert !(p(x) && p(s[0]));
    }
  }

  /** Stability: any selection whose elements share a key is left in its original order. */
  lemma {:induction false} SortKeepsOrder<T(!new)>(s: seq<T>, key: T -> int, p: T -> bool)
    requires forall y, z :: p(y) && p(z) ==> key(y) == key(z)
    ensures Filter(p, StableSort(s, key)) == Filter(p, s)
  {
    if s != [] {
      InsertKeepsOrder(s[0], StableSort(s[1..], key), key, p);
      SortKeepsOrder(s[1..], key, p);
      FilterCons(p, s[0], StableSort(s[1..], key));
    }
  }

  /** No element occurs twice. */
  predicate Distinct<T(==)>(s: seq<T>) {
    s == [] || (s[0] !in s[1..] && Distinct(s[1..]))
  }

  lemma {:induction false} DistinctAt<T(!new)>(s: seq<T>, i: nat, j: nat)
    requires Distinct(s) && i < j < |s|
    ensures s[i] != s[j]
  {
    if i > 0 {
      DistinctAt(s[1..], i - 1, j - 1);
    }
  }

  lemma {:induction false} DistinctFilter<T(!new)>(p: T -> bool, s: seq<T>)
    requires Distinct(s)
    ensures Distinct(Filter(p, s))
  {
    if s != [] {
      DistinctFilter(p, s[1..]);
      FilterMembers(p, s[1..]);
      if p(s[0]) {
        assert Filter(p, s)[1..] == Filter(p, s[1..]);
      } else {
        assert Filter(p, s) == Filter(p, s[1..]);
      }
    }
  }

  lemma {:induction false} DistinctAppend<T(!new)>(s: seq<T>, x: T)
    requires Distinct(s) && x !in s
    ensures Distinct(s + [x])
  {
    if s != [] {
      DistinctAppend(s[1..], x);
      assert (s + [x])[1..] == s[1..] + [x];
    }
  }

  lemma {:induction false} DistinctInsert<T(!new)>(x: T, s: seq<T>, key: T -> int)
    requires Distinct(s) && x !in s
    ensures Distinct(Insert(x, s, key))
  {
    if !(s == [] || key(x) <= key(s[0])) {
      DistinctInsert(x, s[1..], key);
      InsertMembers(x, s[1..], key);
      assert Insert(x, s, key)[1..] == Insert(x, s[1..], key);
    } else {
      assert ([x] + s)[1..] == s;
    }
  }

  lemma {:induction false} DistinctSort<T(!new)>(s: seq<T>, key: T -> int)
    requires Distinct(s)
    ensures Distinct(StableSort(s, key))
  {
    if s != [] {
      DistinctSort(s[1..], key);
      SortMembers(s[1..], key);
      DistinctInsert(s[0], StableSort(s[1..], key), key);
    }
  }

  /** The elements with key k. */
  function KeyIs<T(!new)>(key: T -> int, k: int): T -> bool { x => key(x) == k }

  lemma ClassOfTail<T(!new)>(s: seq<T>, key: T -> int, k: int)
    requires s != []
    ensures key(s[0]) == k ==> Filter(KeyIs(key, k), s) == [s[0]] + Filter(KeyIs(key, k), s[1..])
    ensures key(s[0]) != k ==> Filter(KeyIs(key, k), s) == Filter(KeyIs(key, k), s[1..])
  {
  }

  lemma HeadKeyAtMost<T(!new)>(s: seq<T>, t: seq<T>, key: T -> int)
    requires s != [] && t != [] && Sorted(t, key)
    requires Filter(KeyIs(key, key(s[0])), s) == Filter(KeyIs(key, key(s[0])), t)
    ensures key(t[0]) <= key(s[0])
  {
    ClassOfTail(s, key, key(s[0]));
    FilterMembers(KeyIs(key, key(s[0])), t);
    assert s[0] in t;
  }

  lemma SameHead<T(!new)>(s: seq<T>, t: seq<T>, key: T -> int)
    requires s != [] && t != []
    requires Sorted(s, key) && Sorted(t, key)
    requires forall k :: Filter(KeyIs(key, k), s) == Filter(KeyIs(key, k), t)
    ensures s[0] == t[0]
  {
    HeadKeyAtMost(s, t, key);
    HeadKeyAtMost(t, s, key);
    var k := key(s[0]);
    assert Filter(KeyIs(key, k), s)[0] == s[0] by { ClassOfTail(s, key, k); }
    assert Filter(KeyIs(key, k), t)[0] == t[0] by { ClassOfTail(t, key, k); }
  }

  /** Two sorted sequences that agree on every key class are the same sequence. */
  lemma {:induction false} SortedIsUnique<T(!new)>(s: seq<T>, t: seq<T>, key: T -> int)
    requires Sorted(s, key) && Sorted(t, key)
    requires forall k :: Filter(KeyIs(key, k), s) == Filter(KeyIs(key, k), t)
    ensures s == t
    decreases |s|
  {
    if s == [] {
      if t != [] {
        ClassOfTail(t, key, key(t[0]));
      }
    } else {
      ClassOfTail(s, key, key(s[0]));
      assert t != [];
      SameHead(s, t, key);
      forall k ensures Filter(KeyIs(key, k), s[1..]) == Filter(KeyIs(key, k), t[1..]) {
        ClassOfTail(s, key, k);
        ClassOfTail(t, key, k);
        assert ([s[0]] + Filter(KeyIs(key, k), s[1..]))[1..] == Filter(KeyIs(key, k), s[1..]);
        assert ([t[0]] + Filter(KeyIs(key, k), t[1..]))[1..] == Filter(KeyIs(key, k), t[1..]);
        assert Filter(KeyIs(key, k), s) == Filter(KeyIs(key, k), t);
      }
      SortedIsUnique(s[1..], t[1..], key);
      assert s == [s[0]] + s[1..] && t == [t[0]] + t[1..];
    }
  }
}
