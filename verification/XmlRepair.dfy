// Editing a copied document in place, what an edit leaves alone, and the order-independence of
// edits to different address fields.
module XmlRepair {
  import opened Strings
  import opened Sorting
  import opened XmlTree
  import opened Pacs008
  import opened RepairLens
  import opened RepairEngine

  // ----- the mutable document -----

  class XmlDocument {
    var tree: Tree

    /** `deepcopy` */
    constructor Copy(t: Tree)
      ensures tree == t
    {
      tree := t;
    }

    /** `_navigate`: walk the steps with a moving node. */
    method Navigate(path: string) returns (el: Option<Id>)
      requires WellFormedPath(path)
      ensures el == XmlTree.Navigate(tree, path)
    {
      var segments := Segments(path);
      if segments == [] {
        return None;
      }
      var rest := StepsBelowRoot(tree, segments);
      var node := tree.root;
      while rest != []
        invariant WellFormedSteps(rest)
        invariant Descend(tree, node, rest) == XmlTree.Navigate(tree, path)
        decreases |rest|
      {
        var child := ChildByLocal(tree, node, rest[0]);
        if child.None? {
          return None;
        }
        node, rest := child.value, rest[1..];
      }
      return Some(node);
    }

    /** `_reorder_children`: the children of `p` end in component order; children of one rank, so also
        those of one name, keep their order; nothing else in the document changes. */
    method ReorderChildren(p: Id)
      requires p in tree.kids
      modifies this
      ensures tree == old(tree).(kids := old(tree).kids[p := KidsOf(tree, p)])
      ensures Sorted(KidsOf(tree, p), RankKey(tree.tags))
      ensures multiset(KidsOf(tree, p)) == multiset(old(KidsOf(tree, p)))
      ensures SameRanks(tree.tags, old(KidsOf(tree, p)), KidsOf(tree, p))
      ensures forall n :: KidsNamed(tree, p, n) == KidsNamed(old(tree), p, n)
    {
      ghost var before := tree;
      Reordered(tree.tags, KidsOf(tree, p));
      tree := tree.(kids := tree.kids[p := StableSort(tree.kids[p], RankKey(tree.tags))]);
      forall n ensures KidsNamed(tree, p, n) == KidsNamed(before, p, n) {
        NamesakesKeepOrder(tree.tags, KidsOf(before, p), n);
      }
    }

    /** `_create_missing`: a missing postal address component, in the source's component order. */
    method CreateMissing(path: string, value: Option<string>) returns (created: Option<Id>)
      requires Valid(tree) && WellFormedPath(path)
      modifies this
      ensures var p := MissingParent(old(tree), Segments(path));
        && (p.None? ==> created.None? && tree == old(tree))
        && (p.Some? ==> var name := StepName(Segments(path)[|Segments(path)| - 1]);
             && created == Some(NewId(old(tree), p.value, name))
             && tree == AddLeaf(old(tree), p.value, name, value))
    {
      var segments := Segments(path);
      if |segments| < 2 {
        return None;
      }
      var leafName := StepName(segments[|segments| - 1]);
      WellFormedPrefix(segments, |segments| - 1);
      ParentPath(path);
      var p := Navigate(Join(segments[..|segments| - 1], "/"));
      if p.None? || leafName !in POSTAL_ADDRESS_ORDER {
        return None;
      }
      ParentInside(tree, segments);
      var id := InsertChild(p.value, leafName, value);
      return Some(id);
    }

    /** `etree.SubElement` with its text, then the re-sort. */
    method InsertChild(p: Id, name: string, value: Option<string>) returns (id: Id)
      requires Valid(tree) && p in tree.tags
      modifies this
      ensures id == NewId(old(tree), p, name)
      ensures tree == AddLeaf(old(tree), p, name, value)
    {
      ghost var t := tree;
      id := NewId(tree, p, name);
      NewIdIsFresh(t, p, name);
      tree := tree.(tags := LeafTags(tree, p, name), attrs := tree.attrs[id := map[]], text := tree.text[id := value],
                    kids := tree.kids[id := []][p := tree.kids[p] + [id]], parent := tree.parent[id := p]);
      ghost var unsorted := tree.kids;
      ReorderChildren(p);
      OnlyReordering(tree.tags, unsorted[p], tree.kids[p]);
      AppendThenSort(t, p, name, value, unsorted, tree);
    }

    /** `_apply_one` */
    method ApplyOne(change: Change) returns (ok: bool)
      requires Valid(tree) && WellFormedPath(change.path)
      modifies this
      ensures (tree, ok) == Apply(old(tree), change.path, change.after)
      ensures Valid(tree)
    {
      ApplyValid(tree, change.path, change.after);
      var el := Navigate(change.path);
      if el.Some? {
        tree := tree.(text := tree.text[el.value := change.after]);
        return true;
      }
      var created := CreateMissing(change.path, change.after);
      return created.Some?;
    }

    /** `apply_changes`: the changes applied to a copy; this document is not touched. */
    method ApplyChanges(changes: seq<Change>) returns (copy: XmlDocument, applied: seq<ChangeStatus>)
      requires Valid(tree) && WellFormedChanges(changes)
      ensures fresh(copy) && tree == old(tree)
      ensures (copy.tree, applied) == ApplyAll(tree, changes) && Valid(copy.tree)
    {
      copy := new XmlDocument.Copy(tree);
      applied := [];
      for i := 0 to |changes|
        invariant fresh(copy) && tree == old(tree) && Valid(copy.tree)
        invariant WellFormedChanges(changes[..i])
        invariant (copy.tree, applied) == ApplyAll(tree, changes[..i])
      {
        ApplyOneMore(tree, changes, i);
        var ok := copy.ApplyOne(changes[i]);
        applied := applied + [if ok then Validated else Rejected];
      }
      assert changes[..|changes|] == changes;
    }
  }

  /** Children of each rank stand in the same order in both lists. */
  ghost predicate SameRanks(tags: map<Id, Tag>, s: seq<Id>, s': seq<Id>) {
    forall k :: Filter(KeyIs(RankKey(tags), k), s') == Filter(KeyIs(RankKey(tags), k), s)
  }

  lemma Reordered(tags: map<Id, Tag>, s: seq<Id>)
    ensures var s' := StableSort(s, RankKey(tags));
      Sorted(s', RankKey(tags)) && multiset(s') == multiset(s) && SameRanks(tags, s, s')
  {
    SortIsSorted(s, RankKey(tags));
    forall k ensures Filter(KeyIs(RankKey(tags), k), StableSort(s, RankKey(tags))) == Filter(KeyIs(RankKey(tags), k), s) {
      SortKeepsOrder(s, RankKey(tags), KeyIs(RankKey(tags), k));
    }
  }

  lemma NamesakesKeepOrder(tags: map<Id, Tag>, s: seq<Id>, name: string)
    ensures Filter(HasName(tags, name), StableSort(s, RankKey(tags))) == Filter(HasName(tags, name), s)
  {
    SortKeepsOrder(s, RankKey(tags), HasName(tags, name));
  }

  /** What ReorderChildren promises leaves only one list. */
  lemma OnlyReordering(tags: map<Id, Tag>, s: seq<Id>, s': seq<Id>)
    requires Sorted(s', RankKey(tags)) && SameRanks(tags, s, s')
    ensures s' == StableSort(s, RankKey(tags))
  {
    Reordered(tags, s);
    SortedIsUnique(s', StableSort(s, RankKey(tags)), RankKey(tags));
  }

  lemma SortedList(t: Tree, p: Id, name: string, unsorted: map<Id, seq<Id>>)
    requires p in t.kids && NewId(t, p, name) !in t.tags && p in t.tags
    requires unsorted == t.kids[NewId(t, p, name) := []][p := t.kids[p] + [NewId(t, p, name)]]
    ensures unsorted[p := StableSort(unsorted[p], RankKey(LeafTags(t, p, name)))]
      == t.kids[NewId(t, p, name) := []][p := LeafList(t, p, name)]
  {
    assert unsorted[p] == KidsOf(t, p) + [NewId(t, p, name)];
  }

  lemma AppendThenSort(t: Tree, p: Id, name: string, value: Option<string>, unsorted: map<Id, seq<Id>>, t': Tree)
    requires p in t.kids && NewId(t, p, name) !in t.tags && p in t.tags
    requires unsorted == t.kids[NewId(t, p, name) := []][p := t.kids[p] + [NewId(t, p, name)]]
    requires t'.root == t.root && t'.tags == LeafTags(t, p, name)
    requires t'.attrs == t.attrs[NewId(t, p, name) := map[]] && t'.text == t.text[NewId(t, p, name) := value]
    requires t'.kids == unsorted[p := StableSort(unsorted[p], RankKey(t'.tags))]
    requires t'.parent == t.parent[NewId(t, p, name) := p]
    ensures t' == AddLeaf(t, p, name, value)
  {
    SortedList(t, p, name, unsorted);
  }

  lemma ApplyOneMore(t: Tree, changes: seq<Change>, i: nat)
    requires WellFormedChanges(changes) && i < |changes|
    ensures WellFormedChanges(changes[..i]) && WellFormedChanges(changes[..i + 1]) && WellFormedPath(changes[i].path)
    ensures var r := ApplyAll(t, changes[..i]);
      ApplyAll(t, changes[..i + 1]) == (Apply(r.0, changes[i].path, changes[i].after).0,
        r.1 + [if Apply(r.0, changes[i].path, changes[i].after).1 then Validated else Rejected])
  {
    assert changes[..i + 1] == changes[..i] + [changes[i]];
    ApplyLast(t, changes[..i], changes[i]);
  }

  lemma {:induction false} JoinIsPath(first: string, rest: seq<string>)
    ensures Join([first] + rest, "/") == first + PathOf(rest)
    decreases |rest|
  {
    if rest == [] {
      assert first + "" == first;
    } else {
      JoinIsPath(rest[0], rest[1..]);
      assert ([first] + rest)[1..] == [rest[0]] + rest[1..];
      Assoc(first, "/", rest[0] + PathOf(rest[1..]));
    }
  }

  lemma {:induction false} SlashFreeFrom(segs: seq<string>)
    requires forall i :: 0 <= i < |segs| ==> segs[i] != "" && '/' !in segs[i]
    ensures SlashFree(segs)
  {
    if segs != [] {
      SlashFreeFrom(segs[1..]);
    }
  }

  /** Re-joining steps and splitting them again changes nothing. */
  lemma SegmentsOfJoin(segs: seq<string>)
    requires segs != [] && SlashFree(segs)
    ensures Segments(Join(segs, "/")) == segs
  {
    assert segs == [segs[0]] + segs[1..];
    JoinIsPath(segs[0], segs[1..]);
    SplitAfterSlash(segs[0], segs[1..]);
    KeepNonEmpty(segs);
  }

  lemma ParentPath(path: string)
    requires WellFormedPath(path) && |Segments(path)| >= 2
    ensures var front := Segments(path)[..|Segments(path)| - 1];
      && WellFormedSteps(front) && WellFormedPath(Join(front, "/")) && Segments(Join(front, "/")) == front
  {
    var segs := Segments(path);
    var front := segs[..|segs| - 1];
    WellFormedPrefix(segs, |segs| - 1);
    forall i | 0 <= i < |front| ensures front[i] != "" && '/' !in front[i] {
      assert front[i] in segs;
    }
    SlashFreeFrom(front);
    SegmentsOfJoin(front);
  }

  lemma {:induction false} ResolveInside(t: Tree, segs: seq<string>)
    requires Valid(t) && WellFormedSteps(segs)
    ensures Resolve(t, segs).Some? ==> Resolve(t, segs).value in t.tags
  {
    if segs != [] {
      DescendInside(t, t.root, StepsBelowRoot(t, segs));
    }
  }

  lemma ParentInside(t: Tree, segs: seq<string>)
    requires Valid(t) && WellFormedSteps(segs) && |segs| >= 2
    ensures WellFormedSteps(segs[..|segs| - 1])
    ensures var p := Resolve(t, segs[..|segs| - 1]); p.Some? ==> p.value in t.tags && p.value in t.kids
  {
    WellFormedPrefix(segs, |segs| - 1);
    ResolveInside(t, segs[..|segs| - 1]);
  }

  /** A change keeps the document well formed. */
  lemma ApplyValid(t: Tree, path: string, after: Option<string>)
    requires Valid(t) && WellFormedPath(path)
    ensures Valid(Apply(t, path, after).0)
  {
    var segs := Segments(path);
    ResolveInside(t, segs);
    if Navigate(t, path).Some? {
      SetTextValid(t, Navigate(t, path).value, after);
    } else if MissingParent(t, segs).Some? {
      ParentInside(t, segs);
      AddLeafValid(t, MissingParent(t, segs).value, StepName(segs[|segs| - 1]), after);
    }
  }

  // ----- what a change leaves alone -----

  /** Any change, at any path: an overwrite touches one text; an insertion adds one element, last
      among its namesakes, and leaves its parent's children sorted; a rejected change does nothing. */
  lemma ChangeFrame(t: Tree, path: string, after: Option<string>)
    requires Valid(t) && WellFormedPath(path)
    ensures var (t', ok) := Apply(t, path, after); var segs := Segments(path);
      && Valid(t') && t'.root == t.root
      && (ok <==> Navigate(t, path).Some? || MissingParent(t, segs).Some?)
      && (!ok ==> t' == t)
      && (forall x :: x in t.tags ==> x in t'.tags && t'.tags[x] == t.tags[x] && t'.attrs[x] == t.attrs[x])
      && (forall x :: x in t.tags && Navigate(t, path) != Some(x) ==> TextOf(t', x) == TextOf(t, x))
      && (forall p, n :: p in t.tags ==> KidsNamed(t, p, n) <= KidsNamed(t', p, n))
      && (Navigate(t, path).Some? ==> t'.kids == t.kids && TextOf(t', Navigate(t, path).value) == after)
      && (ok && Navigate(t, path).None? ==>
            var p, name := MissingParent(t, segs).value, StepName(segs[|segs| - 1]);
            && KidsNamed(t', p, name) == KidsNamed(t, p, name) + [NewId(t, p, name)]
            && TextOf(t', NewId(t, p, name)) == after
            && Sorted(KidsOf(t', p), RankKey(t'.tags))
            && multiset(KidsOf(t', p)) == multiset(KidsOf(t, p) + [NewId(t, p, name)]))
  {
    var segs := Segments(path);
    ApplyValid(t, path, after);
    ResolveInside(t, segs);
    if Navigate(t, path).None? && MissingParent(t, segs).Some? {
      var p, name := MissingParent(t, segs).value, StepName(segs[|segs| - 1]);
      ParentInside(t, segs);
      InsertFrame(t, p, name, after);
    }
  }

  lemma InsertFrame(t: Tree, p: Id, name: string, after: Option<string>)
    requires Valid(t) && p in t.tags
    ensures var t' := AddLeaf(t, p, name, after);
      && t'.root == t.root
      && (forall x :: x in t.tags ==> x in t'.tags && t'.tags[x] == t.tags[x] && t'.attrs[x] == t.attrs[x])
      && (forall x :: x in t.tags ==> TextOf(t', x) == TextOf(t, x))
      && (forall q, n :: q in t.tags ==> KidsNamed(t, q, n) <= KidsNamed(t', q, n))
      && KidsNamed(t', p, name) == KidsNamed(t, p, name) + [NewId(t, p, name)]
      && TextOf(t', NewId(t, p, name)) == after
      && Sorted(KidsOf(t', p), RankKey(t'.tags))
      && multiset(KidsOf(t', p)) == multiset(KidsOf(t, p) + [NewId(t, p, name)])
  {
    AddLeafFrame(t, p, name, after);
    AddLeafOrder(t, p, name, after);
    AddLeafKids(t, p, name, after, p, name);
    forall q, n | q in t.tags ensures KidsNamed(t, q, n) <= KidsNamed(AddLeaf(t, p, name, after), q, n) {
      AddLeafKids(t, p, name, after, q, n);
    }
  }

  // ----- edits at different address fields commute -----

  lemma {:induction false} SortAgrees<T(!new)>(s: seq<T>, key: T -> int, key': T -> int)
    requires forall x :: x in s ==> key(x) == key'(x)
    ensures StableSort(s, key) == StableSort(s, key')
  {
    if s != [] {
      SortAgrees(s[1..], key, key');
      SortMembers(s[1..], key);
      InsertAgrees(s[0], StableSort(s[1..], key), key, key');
    }
  }

  lemma {:induction false} InsertAgrees<T(!new)>(x: T, s: seq<T>, key: T -> int, key': T -> int)
    requires key(x) == key'(x) && forall y :: y in s ==> key(y) == key'(y)
    ensures Insert(x, s, key) == Insert(x, s, key')
  {
    if !(s == [] || key(x) <= key(s[0])) {
      InsertAgrees(x, s[1..], key, key');
    }
  }

  /** Adding two elements of different rank one after the other, in either order, gives one list. */
  lemma SortTwice<T(!new)>(s: seq<T>, x: T, y: T, key: T -> int)
    requires key(x) != key(y)
    ensures StableSort(StableSort(s + [x], key) + [y], key) == StableSort(StableSort(s + [y], key) + [x], key)
  {
    var a, b := StableSort(StableSort(s + [x], key) + [y], key), StableSort(StableSort(s + [y], key) + [x], key);
    forall k ensures Filter(KeyIs(key, k), a) == Filter(KeyIs(key, k), b) {
      TwiceClass(s, x, y, key, k);
      TwiceClass(s, y, x, key, k);
    }
    SortIsSorted(StableSort(s + [x], key) + [y], key);
    SortIsSorted(StableSort(s + [y], key) + [x], key);
    SortedIsUnique(a, b, key);
  }

  lemma TwiceClass<T(!new)>(s: seq<T>, x: T, y: T, key: T -> int, k: int)
    ensures Filter(KeyIs(key, k), StableSort(StableSort(s + [x], key) + [y], key))
      == Filter(KeyIs(key, k), s) + (if key(x) == k then [x] else []) + (if key(y) == k then [y] else [])
  {
    var c, inner := KeyIs(key, k), StableSort(s + [x], key);
    SortKeepsOrder(inner + [y], key, c);
    FilterAppend(c, inner, [y]);
    FilterCons(c, y, []);
    SortKeepsOrder(s + [x], key, c);
    FilterAppend(c, s, [x]);
    FilterCons(c, x, []);
  }

  lemma SwapUpdates<K, V>(m: map<K, V>, k: K, v: V, l: K, w: V)
    requires k != l
    ensures m[k := v][l := w] == m[l := w][k := v]
  {
  }

  lemma OverwritesCommute(t: Tree, l: Id, v: Option<string>, k: Id, w: Option<string>)
    requires l != k
    ensures SetText(SetText(t, l, v), k, w) == SetText(SetText(t, k, w), l, v)
  {
    SwapUpdates(t.text, l, v, k, w);
  }

  lemma OverwriteInsertCommute(t: Tree, l: Id, v: Option<string>, b: Id, n: string, w: Option<string>)
    requires l != NewId(t, b, n)
    ensures AddLeaf(SetText(t, l, v), b, n, w) == SetText(AddLeaf(t, b, n, w), l, v)
  {
    SetTextKids(t, l, v, b, n);
    SwapUpdates(t.text, l, v, NewId(t, b, n), w);
  }

  /** A tag recorded for an element outside the list does not change how the list is sorted. */
  lemma ExtraTag(tags: map<Id, Tag>, id: Id, tag: Tag, ids: seq<Id>)
    requires id !in ids
    ensures StableSort(ids, RankKey(tags)) == StableSort(ids, RankKey(tags[id := tag]))
  {
    forall x | x in ids ensures RankKey(tags)(x) == RankKey(tags[id := tag])(x) {
    }
    SortAgrees(ids, RankKey(tags), RankKey(tags[id := tag]));
  }

  lemma SecondInsert(t: Tree, a: Id, m: string, v: Option<string>, b: Id, n: string)
    requires Valid(t) && a in t.tags && b in t.tags && !(a == b && m == n)
    ensures NewId(AddLeaf(t, a, m, v), b, n) == NewId(t, b, n)
    ensures NewId(t, a, m) != NewId(t, b, n)
    ensures LeafTags(AddLeaf(t, a, m, v), b, n) == LeafTags(AddLeaf(t, b, n, v), a, m)
    ensures LeafTags(AddLeaf(t, a, m, v), b, n) == LeafTags(t, b, n)[NewId(t, a, m) := LeafTags(t, a, m)[NewId(t, a, m)]]
  {
    NewIdIsFresh(t, a, m);
    NewIdIsFresh(t, b, n);
    AddLeafKids(t, a, m, v, b, n);
    AddLeafKids(t, b, n, v, a, m);
    SwapUpdates(t.tags, NewId(t, a, m), LeafTags(t, a, m)[NewId(t, a, m)], NewId(t, b, n), LeafTags(t, b, n)[NewId(t, b, n)]);
  }

  /** Inserting elsewhere does not change how an address's children are sorted. */
  lemma ListElsewhere(t: Tree, a: Id, m: string, v: Option<string>, b: Id, n: string)
    requires Valid(t) && a in t.tags && b in t.tags && a != b
    ensures LeafList(AddLeaf(t, a, m, v), b, n) == LeafList(t, b, n)
  {
    var x, ids := NewId(t, a, m), KidsOf(t, b) + [NewId(t, b, n)];
    SecondInsert(t, a, m, v, b, n);
    NewIdIsFresh(t, a, m);
    assert x !in ids;
    ExtraTag(LeafTags(t, b, n), x, LeafTags(t, a, m)[x], ids);
    assert KidsOf(AddLeaf(t, a, m, v), b) == KidsOf(t, b);
  }

  lemma InsertsCommuteElsewhere(t: Tree, a: Id, m: string, v: Option<string>, b: Id, n: string, w: Option<string>)
    requires Valid(t) && a in t.tags && b in t.tags && a != b
    ensures AddLeaf(AddLeaf(t, a, m, v), b, n, w) == AddLeaf(AddLeaf(t, b, n, w), a, m, v)
  {
    var x, y := NewId(t, a, m), NewId(t, b, n);
    SecondInsert(t, a, m, v, b, n);
    SecondInsert(t, b, n, w, a, m);
    NewIdIsFresh(t, a, m);
    NewIdIsFresh(t, b, n);
    ListElsewhere(t, a, m, v, b, n);
    ListElsewhere(t, b, n, w, a, m);
    SwapUpdates(t.text, x, v, y, w);
    SwapUpdates(t.attrs, x, map[], y, map[]);
    SwapUpdates(t.parent, x, a, y, b);
    KidsCommute(t.kids, x, a, LeafList(t, a, m), y, b, LeafList(t, b, n));
  }

  lemma KidsCommute(kids: map<Id, seq<Id>>, x: Id, a: Id, la: seq<Id>, y: Id, b: Id, lb: seq<Id>)
    requires x != y && a != b && x != b && y != a && x != a && y != b
    ensures kids[x := []][a := la][y := []][b := lb] == kids[y := []][b := lb][x := []][a := la]
  {
  }

  /** The tags once both leaves of one address exist. */
  function BothTags(t: Tree, a: Id, m: string, n: string): map<Id, Tag> {
    LeafTags(t, a, m)[NewId(t, a, n) := LeafTags(t, a, n)[NewId(t, a, n)]]
  }

  lemma FirstSorted(t: Tree, a: Id, m: string, n: string)
    requires Valid(t) && a in t.tags && m != n
    ensures LeafList(t, a, m) == StableSort(KidsOf(t, a) + [NewId(t, a, m)], RankKey(BothTags(t, a, m, n)))
  {
    NewIdIsFresh(t, a, n);
    var ids := KidsOf(t, a) + [NewId(t, a, m)];
    assert NewId(t, a, n) !in ids;
    ExtraTag(LeafTags(t, a, m), NewId(t, a, n), LeafTags(t, a, n)[NewId(t, a, n)], ids);
  }

  lemma SecondSorted(t: Tree, a: Id, m: string, v: Option<string>, n: string)
    requires Valid(t) && a in t.tags && m != n
    ensures LeafList(AddLeaf(t, a, m, v), a, n) == StableSort(
      StableSort(KidsOf(t, a) + [NewId(t, a, m)], RankKey(BothTags(t, a, m, n))) + [NewId(t, a, n)], RankKey(BothTags(t, a, m, n)))
  {
    SecondInsert(t, a, m, v, a, n);
    SecondInsert(t, a, n, v, a, m);
    FirstSorted(t, a, m, n);
    assert KidsOf(AddLeaf(t, a, m, v), a) == LeafList(t, a, m);
  }

  /** Two missing leaves of one address: the twice-sorted child list is the same either way. */
  lemma ListTwice(t: Tree, a: Id, m: string, v: Option<string>, n: string, w: Option<string>)
    requires Valid(t) && a in t.tags && IndexIn(POSTAL_ADDRESS_ORDER, m) != IndexIn(POSTAL_ADDRESS_ORDER, n)
    ensures LeafList(AddLeaf(t, a, m, v), a, n) == LeafList(AddLeaf(t, a, n, w), a, m)
  {
    var x, y, tags := NewId(t, a, m), NewId(t, a, n), BothTags(t, a, m, n);
    SecondSorted(t, a, m, v, n);
    SecondSorted(t, a, n, w, m);
    SwapUpdates(t.tags, x, LeafTags(t, a, m)[x], y, LeafTags(t, a, n)[y]);
    assert RankKey(tags)(x) != RankKey(tags)(y);
    SortTwice(KidsOf(t, a), x, y, RankKey(tags));
  }

  lemma InsertsCommuteHere(t: Tree, a: Id, m: string, v: Option<string>, n: string, w: Option<string>)
    requires Valid(t) && a in t.tags && IndexIn(POSTAL_ADDRESS_ORDER, m) != IndexIn(POSTAL_ADDRESS_ORDER, n)
    ensures AddLeaf(AddLeaf(t, a, m, v), a, n, w) == AddLeaf(AddLeaf(t, a, n, w), a, m, v)
  {
    var x, y := NewId(t, a, m), NewId(t, a, n);
    SecondInsert(t, a, m, v, a, n);
    SecondInsert(t, a, n, w, a, m);
    NewIdIsFresh(t, a, m);
    NewIdIsFresh(t, a, n);
    ListTwice(t, a, m, v, n, w);
    SwapUpdates(t.text, x, v, y, w);
    SwapUpdates(t.attrs, x, map[], y, map[]);
    SwapUpdates(t.parent, x, a, y, a);
    KidsTwice(t.kids, x, a, LeafList(t, a, m), y, LeafList(t, a, n), LeafList(AddLeaf(t, a, m, v), a, n));
  }

  lemma KidsTwice(kids: map<Id, seq<Id>>, x: Id, a: Id, la: seq<Id>, y: Id, lb: seq<Id>, both: seq<Id>)
    requires x != y && y != a && x != a
    ensures kids[x := []][a := la][y := []][a := both] == kids[y := []][a := lb][x := []][a := both]
  {
  }

  lemma OverwriteThenInsert(t: Tree, a: Id, m: string, v: Option<string>, b: Id, n: string, w: Option<string>)
    requires Valid(t) && a in t.tags && b in t.tags && !(a == b && m == n)
    requires KidsNamed(t, a, m) != [] && KidsNamed(t, b, n) == []
    ensures EditTree(EditTree(t, a, m, v), b, n, w) == EditTree(EditTree(t, b, n, w), a, m, v)
  {
    var l := KidsNamed(t, a, m)[0];
    ChildOf(t, a, m, l);
    NewIdIsFresh(t, b, n);
    SetTextKids(t, l, v, b, n);
    AddLeafKids(t, b, n, w, a, m);
    OverwriteInsertCommute(t, l, v, b, n, w);
  }

  lemma OverwriteBoth(t: Tree, a: Id, m: string, v: Option<string>, b: Id, n: string, w: Option<string>)
    requires Valid(t) && a in t.tags && b in t.tags && !(a == b && m == n)
    requires KidsNamed(t, a, m) != [] && KidsNamed(t, b, n) != []
    ensures EditTree(EditTree(t, a, m, v), b, n, w) == EditTree(EditTree(t, b, n, w), a, m, v)
  {
    var l, k := KidsNamed(t, a, m)[0], KidsNamed(t, b, n)[0];
    ChildOf(t, a, m, l);
    ChildOf(t, b, n, k);
    SetTextKids(t, l, v, b, n);
    SetTextKids(t, k, w, a, m);
    OverwritesCommute(t, l, v, k, w);
  }

  lemma InsertBoth(t: Tree, a: Id, m: string, v: Option<string>, b: Id, n: string, w: Option<string>)
    requires Valid(t) && a in t.tags && b in t.tags
    requires a == b ==> IndexIn(POSTAL_ADDRESS_ORDER, m) != IndexIn(POSTAL_ADDRESS_ORDER, n)
    requires KidsNamed(t, a, m) == [] && KidsNamed(t, b, n) == []
    ensures EditTree(EditTree(t, a, m, v), b, n, w) == EditTree(EditTree(t, b, n, w), a, m, v)
  {
    AddLeafKids(t, a, m, v, b, n);
    AddLeafKids(t, b, n, w, a, m);
    if a == b {
      InsertsCommuteHere(t, a, m, v, n, w);
    } else {
      InsertsCommuteElsewhere(t, a, m, v, b, n, w);
    }
  }

  /** Edits of different address fields give the same tree in either order. */
  lemma EditTreesCommute(t: Tree, a: Id, m: string, v: Option<string>, b: Id, n: string, w: Option<string>)
    requires Valid(t) && a in t.tags && b in t.tags
    requires a == b ==> IndexIn(POSTAL_ADDRESS_ORDER, m) != IndexIn(POSTAL_ADDRESS_ORDER, n)
    ensures EditTree(EditTree(t, a, m, v), b, n, w) == EditTree(EditTree(t, b, n, w), a, m, v)
  {
    if KidsNamed(t, a, m) != [] && KidsNamed(t, b, n) != [] {
      OverwriteBoth(t, a, m, v, b, n, w);
    } else if KidsNamed(t, a, m) != [] {
      OverwriteThenInsert(t, a, m, v, b, n, w);
    } else if KidsNamed(t, b, n) != [] {
      OverwriteThenInsert(t, b, n, w, a, m, v);
    } else {
      InsertBoth(t, a, m, v, b, n, w);
    }
  }

  function LeafRank(leaf: Leaf): nat { if leaf.Ctry? then 7 else 6 }

  lemma LeafRankIs(leaf: Leaf)
    ensures IndexIn(POSTAL_ADDRESS_ORDER, LeafName(leaf)) == LeafRank(leaf)
  {
    IndexInAt(POSTAL_ADDRESS_ORDER, LeafRank(leaf));
  }

  ghost function AddressEl(t: Tree, e: Edit): Id
    requires Addresses(t, e)
  {
    AddressNode(t, TxElements(t)[e.tx], e.slot).value
  }

  /** The tree after one proposed change. */
  function After(t: Tree, e: Edit): Tree
    requires WellFormedPath(ChangeOf(e).path)
  {
    Apply(t, ChangeOf(e).path, ChangeOf(e).after).0
  }

  lemma AfterIsEdit(t: Tree, e: Edit, f: Edit)
    requires Valid(t) && IsDocument(t) && Addresses(t, e) && Addresses(t, f)
    ensures WellFormedPath(ChangeOf(e).path)
    ensures After(t, e) == EditTree(t, AddressEl(t, e), LeafName(e.leaf), Some(e.value))
    ensures Valid(After(t, e)) && IsDocument(After(t, e)) && Addresses(After(t, e), f)
    ensures AddressEl(After(t, e), f) == AddressEl(t, f)
    ensures AddressEl(t, e) in t.tags
  {
    ApplyIsEdit(t, e.tx, e.slot, e.leaf, Some(e.value));
    ApplyEdit(t, e);
    AddressHolder(t, TxElements(t)[e.tx], e.slot, AddressEl(t, e));
  }

  lemma SameAddressSameTx(t: Tree, e: Edit, f: Edit, a: Id)
    requires Valid(t) && Addresses(t, e) && Addresses(t, f)
    requires AddressNode(t, TxElements(t)[e.tx], e.slot) == Some(a) && AddressNode(t, TxElements(t)[f.tx], f.slot) == Some(a)
    ensures e.tx == f.tx && e.slot == f.slot
  {
    OneSlot(t, TxElements(t)[e.tx], e.slot, TxElements(t)[f.tx], f.slot, a);
    if e.tx != f.tx {
      var i, j := if e.tx < f.tx then e.tx else f.tx, if e.tx < f.tx then f.tx else e.tx;
      KidsNamedDistinct(t, MessageRoot(t).value, "CdtTrfTxInf", i, j);
    }
  }

  lemma AfterBoth(t: Tree, e: Edit, f: Edit)
    requires Valid(t) && IsDocument(t) && Addresses(t, e) && Addresses(t, f)
    ensures WellFormedPath(ChangeOf(e).path) && WellFormedPath(ChangeOf(f).path)
    ensures After(After(t, e), f) == EditTree(EditTree(t, AddressEl(t, e), LeafName(e.leaf), Some(e.value)),
                                              AddressEl(t, f), LeafName(f.leaf), Some(f.value))
  {
    AfterIsEdit(t, e, f);
    AfterIsEdit(After(t, e), f, f);
  }

  lemma LeavesApart(t: Tree, e: Edit, f: Edit)
    requires Valid(t) && Addresses(t, e) && Addresses(t, f) && AddressEl(t, e) == AddressEl(t, f)
    requires (e.tx, e.slot, e.leaf) != (f.tx, f.slot, f.leaf)
    ensures e.leaf != f.leaf
  {
    SameAddressSameTx(t, e, f, AddressEl(t, e));
  }

  /** Changes proposed for different address fields can be applied in either order. */
  lemma ChangesCommute(t: Tree, e: Edit, f: Edit)
    requires Valid(t) && IsDocument(t) && Addresses(t, e) && Addresses(t, f)
    requires (e.tx, e.slot, e.leaf) != (f.tx, f.slot, f.leaf)
    ensures WellFormedPath(ChangeOf(e).path) && WellFormedPath(ChangeOf(f).path)
    ensures After(After(t, e), f) == After(After(t, f), e)
  {
    AfterBoth(t, e, f);
    AfterBoth(t, f, e);
    LeafRankIs(e.leaf);
    LeafRankIs(f.leaf);
    if AddressEl(t, e) == AddressEl(t, f) {
      LeavesApart(t, e, f);
    }
    AddressHolder(t, TxElements(t)[e.tx], e.slot, AddressEl(t, e));
    AddressHolder(t, TxElements(t)[f.tx], f.slot, AddressEl(t, f));
    EditTreesCommute(t, AddressEl(t, e), LeafName(e.leaf), Some(e.value), AddressEl(t, f), LeafName(f.leaf), Some(f.value));
  }
}
