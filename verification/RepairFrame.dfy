// What a whole repair leaves alone: any list of changes, at any paths, seen from the document they
// were proposed for.
module RepairFrame {
  import opened Strings
  import opened Sorting
  import opened XmlTree
  import opened RepairLens
  import opened RepairEngine
  import opened XmlRepair
  import Candidates

  // ----- the frame -----

  /** The `n` children of `p` are the old ones, followed by new elements. */
  ghost predicate Grown(t: Tree, t': Tree, p: Id, n: string) {
    && KidsNamed(t, p, n) <= KidsNamed(t', p, n)
    && forall i :: |KidsNamed(t, p, n)| <= i < |KidsNamed(t', p, n)| ==> KidsNamed(t', p, n)[i] !in t.tags
  }

  /** No old element has moved below `p`. */
  ghost predicate NoneOld(t: Tree, t': Tree, p: Id, n: string) {
    forall c :: c in KidsNamed(t', p, n) ==> c !in t.tags
  }

  /** Every old element keeps its tag, its attributes, its place and the order of its namesakes. */
  ghost predicate Framed(t: Tree, t': Tree) {
    && t'.root == t.root
    && (forall x :: x in t.tags ==> x in t'.tags && t'.tags[x] == t.tags[x] && AttrsOf(t', x) == AttrsOf(t, x))
    && (forall p, n :: p in t.tags ==> Grown(t, t', p, n))
    && (forall p, n :: p !in t.tags ==> NoneOld(t, t', p, n))
  }

  /** A list of children was left alone or ends in the order of the address components. */
  ghost predicate KeptOrSorted(t: Tree, t': Tree, p: Id) {
    KidsOf(t', p) == KidsOf(t, p) || Sorted(KidsOf(t', p), RankKey(t'.tags))
  }

  ghost predicate AllKeptOrSorted(t: Tree, t': Tree) { forall p :: p in t'.tags ==> KeptOrSorted(t, t', p) }

  /** The text of an old element after the changes: that of the last change whose path names it in the
      original document. */
  function LastWritten(t: Tree, changes: seq<Change>, x: Id): Option<string>
    requires WellFormedChanges(changes)
  {
    if changes == [] then TextOf(t, x)
    else
      var front, last := changes[..|changes| - 1], changes[|changes| - 1];
      if Navigate(t, last.path) == Some(x) then last.after else LastWritten(t, front, x)
  }

  // ----- one more change -----

  lemma FramedItself(t: Tree)
    requires Valid(t)
    ensures Framed(t, t)
  {
    forall p, n | p !in t.tags ensures NoneOld(t, t, p, n) {
      assert KidsOf(t, p) == [];
    }
  }

  lemma FramedOverwrite(t: Tree, t1: Tree, id: Id, value: Option<string>)
    requires Framed(t, t1)
    ensures Framed(t, SetText(t1, id, value))
  {
    var t2 := SetText(t1, id, value);
    forall p, n ensures KidsNamed(t2, p, n) == KidsNamed(t1, p, n) {
      SetTextKids(t1, id, value, p, n);
    }
    forall p, n | p in t.tags ensures Grown(t, t2, p, n) {
      assert Grown(t, t1, p, n);
    }
    forall p, n | p !in t.tags ensures NoneOld(t, t2, p, n) {
      assert NoneOld(t, t1, p, n);
    }
  }

  lemma GrownInsert(t: Tree, t1: Tree, q: Id, name: string, value: Option<string>, p: Id, n: string)
    requires Valid(t1) && q in t1.tags && p in t1.tags && Grown(t, t1, p, n)
    requires forall x :: x in t.tags ==> x in t1.tags
    ensures Grown(t, AddLeaf(t1, q, name, value), p, n)
  {
    NewIdIsFresh(t1, q, name);
    AddLeafKids(t1, q, name, value, p, n);
  }

  lemma NoneOldInsert(t: Tree, t1: Tree, q: Id, name: string, value: Option<string>, p: Id, n: string)
    requires Valid(t1) && q in t1.tags && NoneOld(t, t1, p, n)
    requires forall x :: x in t.tags ==> x in t1.tags
    ensures NoneOld(t, AddLeaf(t1, q, name, value), p, n)
  {
    NewIdIsFresh(t1, q, name);
    if p in t1.tags {
      AddLeafKids(t1, q, name, value, p, n);
    } else {
      NothingOutside(t1, q, name, value, p);
    }
  }

  lemma NothingOutside(t1: Tree, q: Id, name: string, value: Option<string>, p: Id)
    requires Valid(t1) && q in t1.tags && p !in t1.tags
    ensures KidsOf(AddLeaf(t1, q, name, value), p) == []
  {
  }

  lemma FramedInsert(t: Tree, t1: Tree, q: Id, name: string, value: Option<string>)
    requires Valid(t1) && q in t1.tags && Framed(t, t1)
    ensures Framed(t, AddLeaf(t1, q, name, value))
  {
    var t2 := AddLeaf(t1, q, name, value);
    AddLeafFrame(t1, q, name, value);
    forall p, n | p in t.tags ensures Grown(t, t2, p, n) {
      GrownInsert(t, t1, q, name, value, p, n);
    }
    forall p, n | p !in t.tags ensures NoneOld(t, t2, p, n) {
      NoneOldInsert(t, t1, q, name, value, p, n);
    }
  }

  lemma FramedChange(t: Tree, t1: Tree, path: string, after: Option<string>)
    requires Valid(t1) && Framed(t, t1) && WellFormedPath(path)
    ensures Framed(t, Apply(t1, path, after).0)
  {
    var segs := Segments(path);
    if Navigate(t1, path).Some? {
      FramedOverwrite(t, t1, Navigate(t1, path).value, after);
    } else if MissingParent(t1, segs).Some? {
      ParentInside(t1, segs);
      FramedInsert(t, t1, MissingParent(t1, segs).value, StepName(segs[|segs| - 1]), after);
    }
  }

  // ----- paths lead to the old elements they led to -----

  lemma StableChild(t: Tree, t': Tree, node: Id, step: string)
    requires Framed(t, t') && node in t.tags && WellFormedStep(step)
    ensures var c, c' := ChildByLocal(t, node, step), ChildByLocal(t', node, step);
      (c.Some? ==> c' == c) && (c.None? && c'.Some? ==> c'.value !in t.tags)
  {
    assert Grown(t, t', node, StepName(step));
  }

  /** Below a new element everything is new. */
  lemma {:induction false} NewBelow(t: Tree, t': Tree, node: Id, steps: seq<string>)
    requires Framed(t, t') && node !in t.tags && WellFormedSteps(steps)
    ensures Descend(t', node, steps).Some? ==> Descend(t', node, steps).value !in t.tags
    decreases |steps|
  {
    if steps != [] && ChildByLocal(t', node, steps[0]).Some? {
      assert NoneOld(t, t', node, StepName(steps[0]));
      NewBelow(t, t', ChildByLocal(t', node, steps[0]).value, steps[1..]);
    }
  }

  lemma {:induction false} StableDescend(t: Tree, t': Tree, node: Id, steps: seq<string>, x: Id)
    requires Valid(t) && Framed(t, t') && node in t.tags && x in t.tags && WellFormedSteps(steps)
    ensures Descend(t', node, steps) == Some(x) <==> Descend(t, node, steps) == Some(x)
    decreases |steps|
  {
    if steps != [] {
      StableChild(t, t', node, steps[0]);
      var c, c' := ChildByLocal(t, node, steps[0]), ChildByLocal(t', node, steps[0]);
      if c.Some? {
        KidsNamedInside(t, node, StepName(steps[0]));
        StableDescend(t, t', c.value, steps[1..], x);
      } else if c'.Some? {
        NewBelow(t, t', c'.value, steps[1..]);
      }
    }
  }

  lemma StableNavigate(t: Tree, t': Tree, path: string, x: Id)
    requires Valid(t) && Framed(t, t') && x in t.tags && WellFormedPath(path)
    ensures Navigate(t', path) == Some(x) <==> Navigate(t, path) == Some(x)
  {
    var segs := Segments(path);
    if segs != [] {
      StableDescend(t, t', t.root, StepsBelowRoot(t, segs), x);
    }
  }

  lemma TextAfter(t: Tree, t1: Tree, path: string, after: Option<string>, x: Id)
    requires Valid(t) && Valid(t1) && Framed(t, t1) && x in t.tags && WellFormedPath(path)
    ensures TextOf(Apply(t1, path, after).0, x) == if Navigate(t, path) == Some(x) then after else TextOf(t1, x)
  {
    StableNavigate(t, t1, path, x);
    var segs := Segments(path);
    if Navigate(t1, path).None? && MissingParent(t1, segs).Some? {
      NewIdIsFresh(t1, MissingParent(t1, segs).value, StepName(segs[|segs| - 1]));
    }
  }

  // ----- sorted children -----

  lemma InsertKeptOrSorted(t: Tree, t1: Tree, q: Id, name: string, value: Option<string>, p: Id)
    requires Valid(t1) && q in t1.tags && AllKeptOrSorted(t, t1) && p in AddLeaf(t1, q, name, value).tags
    requires KidsOf(t, NewId(t1, q, name)) == []
    ensures KeptOrSorted(t, AddLeaf(t1, q, name, value), p)
  {
    var t2 := AddLeaf(t1, q, name, value);
    AddLeafFrame(t1, q, name, value);
    if p == q {
      AddLeafOrder(t1, q, name, value);
    } else if p in t1.tags {
      assert KeptOrSorted(t, t1, p) && KidsOf(t2, p) == KidsOf(t1, p);
      Candidates.SameRank(t1.tags, t2.tags);
      if Sorted(KidsOf(t1, p), RankKey(t1.tags)) {
        Candidates.SameKidsSorted(t1, t2, p, RankKey(t1.tags), RankKey(t2.tags));
      }
    }
  }

  lemma ChangeKeptOrSorted(t: Tree, t1: Tree, path: string, after: Option<string>)
    requires Valid(t) && Valid(t1) && Framed(t, t1) && AllKeptOrSorted(t, t1) && WellFormedPath(path)
    ensures AllKeptOrSorted(t, Apply(t1, path, after).0)
  {
    var segs, t2 := Segments(path), Apply(t1, path, after).0;
    if Navigate(t1, path).None? && MissingParent(t1, segs).Some? {
      var q, name := MissingParent(t1, segs).value, StepName(segs[|segs| - 1]);
      ParentInside(t1, segs);
      NewIdIsFresh(t1, q, name);
      forall p | p in t2.tags ensures KeptOrSorted(t, t2, p) {
        InsertKeptOrSorted(t, t1, q, name, after, p);
      }
    } else {
      forall p | p in t2.tags ensures KeptOrSorted(t, t2, p) {
        assert KeptOrSorted(t, t1, p);
      }
    }
  }

  // ----- a whole repair -----

  /** Whatever the changes: no old element changes its tag, its attributes, its place or its order among
      its namesakes; its text is that of the last change that names it, and its own when none does; and
      a list of children that gained an element ends in component order. */
  lemma {:induction false} ChangesFrame(t: Tree, changes: seq<Change>)
    requires Valid(t) && WellFormedChanges(changes)
    ensures var t' := ApplyAll(t, changes).0;
      && Valid(t') && Framed(t, t') && AllKeptOrSorted(t, t')
      && forall x :: x in t.tags ==> TextOf(t', x) == LastWritten(t, changes, x)
  {
    if changes == [] {
      FramedItself(t);
    } else {
      var front, last := changes[..|changes| - 1], changes[|changes| - 1];
      ChangesFrame(t, front);
      var t1 := ApplyAll(t, front).0;
      ApplyValid(t1, last.path, last.after);
      FramedChange(t, t1, last.path, last.after);
      ChangeKeptOrSorted(t, t1, last.path, last.after);
      forall x | x in t.tags ensures TextOf(ApplyAll(t, changes).0, x) == LastWritten(t, changes, x) {
        TextAfter(t, t1, last.path, last.after, x);
      }
    }
  }

  // ----- the schema's order, by name -----

  /** The place of a component in PostalAddress24; other names come last. */
  function PlaceOf(name: string): nat {
    if name == "AdrTp" then 0 else if name == "Dept" then 1 else if name == "SubDept" then 2
    else if name == "StrtNm" then 3 else if name == "BldgNb" then 4 else if name == "PstCd" then 5
    else if name == "TwnNm" then 6 else if name == "Ctry" then 7 else if name == "AdrLine" then 8 else 9
  }

  lemma PlacedIsListed(name: string)
    ensures PlaceOf(name) < 9 ==> POSTAL_ADDRESS_ORDER[PlaceOf(name)] == name
    ensures PlaceOf(name) <= 9
  {
  }

  lemma UnplacedIsUnlisted(name: string)
    requires PlaceOf(name) == 9
    ensures name !in POSTAL_ADDRESS_ORDER
  {
  }

  lemma OrderDistinct(i: nat, j: nat)
    requires i < j < 9
    ensures POSTAL_ADDRESS_ORDER[i] != POSTAL_ADDRESS_ORDER[j]
  {
    assert PlaceOf("AdrTp") == 0 && PlaceOf("Dept") == 1 && PlaceOf("SubDept") == 2 && PlaceOf("StrtNm") == 3
      && PlaceOf("BldgNb") == 4 && PlaceOf("PstCd") == 5 && PlaceOf("TwnNm") == 6 && PlaceOf("Ctry") == 7
      && PlaceOf("AdrLine") == 8;
  }

  lemma PlaceIsIndex(name: string)
    ensures IndexIn(POSTAL_ADDRESS_ORDER, name) == PlaceOf(name)
  {
    PlacedIsListed(name);
    if PlaceOf(name) < 9 {
      forall i | 0 <= i < PlaceOf(name) ensures POSTAL_ADDRESS_ORDER[i] != name {
        OrderDistinct(i, PlaceOf(name));
      }
      IndexInAt(POSTAL_ADDRESS_ORDER, PlaceOf(name));
    } else {
      UnplacedIsUnlisted(name);
    }
  }

  /** The children of `p` stand in the order of the components. */
  ghost predicate InSchemaOrder(t: Tree, p: Id) {
    forall i, j :: 0 <= i < j < |KidsOf(t, p)| ==> PlaceOf(NameOf(t, KidsOf(t, p)[i])) <= PlaceOf(NameOf(t, KidsOf(t, p)[j]))
  }

  lemma SortedIsInOrder(t: Tree, p: Id)
    requires Sorted(KidsOf(t, p), RankKey(t.tags))
    ensures InSchemaOrder(t, p)
  {
    var kids := KidsOf(t, p);
    forall i, j | 0 <= i < j < |kids| ensures PlaceOf(NameOf(t, kids[i])) <= PlaceOf(NameOf(t, kids[j])) {
      PlaceIsIndex(NameOf(t, kids[i]));
      PlaceIsIndex(NameOf(t, kids[j]));
      assert RankKey(t.tags)(kids[i]) <= RankKey(t.tags)(kids[j]);
    }
  }

  /** After any list of changes, an element has the children it had, or they stand in the order of the
      PostalAddress24 components. */
  lemma ChangesLeaveOrder(t: Tree, changes: seq<Change>, p: Id)
    requires Valid(t) && WellFormedChanges(changes) && p in ApplyAll(t, changes).0.tags
    ensures var t' := ApplyAll(t, changes).0; KidsOf(t', p) == KidsOf(t, p) || InSchemaOrder(t', p)
  {
    ChangesFrame(t, changes);
    var t' := ApplyAll(t, changes).0;
    assert KeptOrSorted(t, t', p);
    if KidsOf(t', p) != KidsOf(t, p) {
      SortedIsInOrder(t', p);
    }
  }

  // ----- what is created -----

  function Namespace(t: Tree, id: Id): string { if id in t.tags && t.tags[id].Named? then t.tags[id].ns else "" }

  /** An element that was created: its name is a component of PostalAddress24, it lies in its parent's
      namespace, and has no attributes. */
  predicate CreatedWell(t: Tree, id: Id) {
    && id in t.tags && t.tags[id].Named? && PlaceOf(t.tags[id].local) < 9
    && id in t.parent && t.parent[id] in t.tags && t.tags[id].ns == Namespace(t, t.parent[id])
    && id in t.attrs && t.attrs[id] == map[]
  }

  ghost predicate AllCreatedWell(t: Tree, t': Tree) {
    && (forall id :: id in t.tags ==> id in t'.tags)
    && forall id :: id in t'.tags && id !in t.tags ==> CreatedWell(t', id)
  }

  lemma LeafCreated(t: Tree, t1: Tree, parent: Id, name: string, value: Option<string>)
    requires NewId(t1, parent, name) !in t1.tags && parent in t1.tags && AllCreatedWell(t, t1) && PlaceOf(name) < 9
    ensures AllCreatedWell(t, AddLeaf(t1, parent, name, value))
  {
    var id, t2 := NewId(t1, parent, name), AddLeaf(t1, parent, name, value);
    forall x | x in t2.tags && x !in t.tags ensures CreatedWell(t2, x) {
      if x != id {
        assert CreatedWell(t1, x);
      }
    }
  }

  lemma ListedIsPlaced(name: string)
    requires name in POSTAL_ADDRESS_ORDER
    ensures PlaceOf(name) < 9
  {
    if PlaceOf(name) == 9 {
      UnplacedIsUnlisted(name);
    }
  }

  lemma TextCreates(t: Tree, t1: Tree, id: Id, value: Option<string>)
    requires AllCreatedWell(t, t1)
    ensures AllCreatedWell(t, SetText(t1, id, value))
  {
    forall x | x in t1.tags && x !in t.tags ensures CreatedWell(SetText(t1, id, value), x) {
      assert CreatedWell(t1, x);
    }
  }

  lemma ChangeCreates(t: Tree, t1: Tree, path: string, after: Option<string>)
    requires Valid(t1) && AllCreatedWell(t, t1) && WellFormedPath(path)
    ensures AllCreatedWell(t, Apply(t1, path, after).0)
  {
    var segs := Segments(path);
    if Navigate(t1, path).Some? {
      TextCreates(t, t1, Navigate(t1, path).value, after);
    } else if MissingParent(t1, segs).Some? {
      var parent, name := MissingParent(t1, segs).value, StepName(segs[|segs| - 1]);
      ParentInside(t1, segs);
      NewIdIsFresh(t1, parent, name);
      ListedIsPlaced(name);
      LeafCreated(t, t1, parent, name, after);
    }
  }

  /** Over any list of changes: whatever the result has beyond the original's elements is a component of
      PostalAddress24 in its parent's namespace, without attributes. */
  lemma {:induction false} ChangesCreate(t: Tree, changes: seq<Change>)
    requires Valid(t) && WellFormedChanges(changes)
    ensures AllCreatedWell(t, ApplyAll(t, changes).0)
  {
    if changes != [] {
      var front, last := changes[..|changes| - 1], changes[|changes| - 1];
      ChangesFrame(t, front);
      ChangesCreate(t, front);
      ChangeCreates(t, ApplyAll(t, front).0, last.path, last.after);
    }
  }
}
