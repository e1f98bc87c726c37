// The order of a change list: changes of different address fields, in any order, give one document.
module RepairOrder {
  import opened Strings
  import opened XmlTree
  import opened Pacs008
  import opened RepairLens
  import opened RepairEngine
  import opened XmlRepair

  /** The field an edit addresses. */
  function FieldOf(e: Edit): (nat, Slot, Leaf) { (e.tx, e.slot, e.leaf) }

  /** No two edits address the same field. */
  ghost predicate Apart(edits: seq<Edit>) {
    forall i, j :: 0 <= i < j < |edits| ==> FieldOf(edits[i]) != FieldOf(edits[j])
  }

  // ----- folding a list whose steps commute -----

  ghost function Fold<S, T>(s: S, xs: seq<T>, step: (S, T) -> S): S {
    if xs == [] then s else step(Fold(s, xs[..|xs| - 1], step), xs[|xs| - 1])
  }

  ghost predicate Stays<S(!new), T(!new)>(step: (S, T) -> S, ok: S -> bool, xs: seq<T>) {
    forall s, x :: ok(s) && x in xs ==> ok(step(s, x))
  }

  ghost predicate Swaps<S(!new), T(!new)>(step: (S, T) -> S, ok: S -> bool, xs: seq<T>) {
    forall s, x, y :: ok(s) && x in xs && y in xs && x != y ==> step(step(s, x), y) == step(step(s, y), x)
  }

  lemma FoldNext<S, T>(s: S, xs: seq<T>, x: T, step: (S, T) -> S)
    ensures Fold(s, xs + [x], step) == step(Fold(s, xs, step), x)
  {
    assert (xs + [x])[..|xs|] == xs;
  }

  lemma {:induction false} FoldStays<S(!new), T(!new)>(s: S, xs: seq<T>, step: (S, T) -> S, ok: S -> bool, all: seq<T>)
    requires ok(s) && Stays(step, ok, all) && forall x :: x in xs ==> x in all
    ensures ok(Fold(s, xs, step))
  {
    if xs != [] {
      FoldStays(s, xs[..|xs| - 1], step, ok, all);
    }
  }

  function Without<T>(xs: seq<T>, k: nat): seq<T>
    requires k < |xs|
  {
    xs[..k] + xs[k + 1..]
  }

  /** One element can be moved to the end. */
  lemma {:induction false} MovedToEnd<S(!new), T(!new)>(s: S, xs: seq<T>, k: nat, step: (S, T) -> S, ok: S -> bool, all: seq<T>)
    requires ok(s) && Stays(step, ok, all) && Swaps(step, ok, all) && (forall x :: x in xs ==> x in all) && k < |xs|
    ensures Fold(s, xs, step) == step(Fold(s, Without(xs, k), step), xs[k])
  {
    var n := |xs| - 1;
    var front, rest, x, y := xs[..n], Without(xs, k), xs[k], xs[n];
    if k < n {
      var d := Without(front, k);
      assert rest == d + [y];
      MovedToEnd(s, front, k, step, ok, all);
      FoldNext(s, d, y, step);
      FoldStays(s, d, step, ok, all);
      var u := Fold(s, d, step);
      assert x in all && y in all;
      assert step(step(u, x), y) == step(step(u, y), x);
    } else {
      assert rest == front;
    }
  }

  lemma SplitAt<T>(xs: seq<T>, k: nat)
    requires k < |xs|
    ensures multiset(xs) == multiset(Without(xs, k)) + multiset{xs[k]}
  {
    var before, after := xs[..k], xs[k + 1..];
    assert xs == before + [xs[k]] + after;
    assert multiset(Without(xs, k)) == multiset(before) + multiset(after);
  }

  lemma RestIsReordered<T>(xs: seq<T>, k: nat, front: seq<T>)
    requires k < |xs| && multiset(xs) == multiset(front + [xs[k]])
    ensures multiset(Without(xs, k)) == multiset(front)
  {
    SplitAt(xs, k);
    assert multiset(front + [xs[k]]) == multiset(front) + multiset{xs[k]};
    assert multiset(Without(xs, k)) == multiset(xs) - multiset{xs[k]} == multiset(front);
  }

  /** Where all steps commute, every order of a list folds to the same result. */
  lemma {:induction false} FoldReordered<S(!new), T(!new)>(s: S, xs: seq<T>, ys: seq<T>, step: (S, T) -> S, ok: S -> bool, all: seq<T>)
    requires ok(s) && Stays(step, ok, all) && Swaps(step, ok, all) && (forall x :: x in xs ==> x in all)
    requires multiset(xs) == multiset(ys)
    ensures Fold(s, xs, step) == Fold(s, ys, step)
    decreases |ys|
  {
    if ys == [] {
      assert |xs| == |multiset(xs)|;
    } else {
      var front, y := ys[..|ys| - 1], ys[|ys| - 1];
      assert ys == front + [y];
      assert y in multiset(xs);
      var k: nat :| k < |xs| && xs[k] == y;
      MovedToEnd(s, xs, k, step, ok, all);
      RestIsReordered(xs, k, front);
      FoldReordered(s, Without(xs, k), front, step, ok, all);
    }
  }

  // ----- the changes of an edit list as a fold -----

  /** The document after one more change. */
  ghost function Next(t: Tree, e: Edit): Tree {
    if IsDocument(t) && Addresses(t, e) then (AddressesWellFormed(t, e); After(t, e)) else t
  }

  ghost function NextFn(): (Tree, Edit) -> Tree { (t: Tree, e: Edit) => Next(t, e) }

  ghost function PlacesFn(t: Tree): Tree -> bool { (u: Tree) => SamePlaces(t, u) }

  lemma NextIs(t: Tree, edits: seq<Edit>, t1: Tree)
    requires edits != [] && IsDocument(t) && AllAddress(t, edits) && SamePlaces(t, t1)
    requires WellFormedChanges(ChangesOf(edits)) && WellFormedChanges(ChangesOf(edits[..|edits| - 1]))
    requires ApplyAll(t, ChangesOf(edits[..|edits| - 1])).0 == t1
    ensures ApplyAll(t, ChangesOf(edits)).0 == Next(t1, edits[|edits| - 1])
  {
    ApplyNext(t, edits, t1);
  }

  lemma AllButLast(t: Tree, edits: seq<Edit>)
    requires Valid(t) && IsDocument(t) && edits != [] && AllAddress(t, edits)
    ensures AllAddress(t, edits[..|edits| - 1]) && WellFormedChanges(ChangesOf(edits[..|edits| - 1]))
    ensures SamePlaces(t, ApplyAll(t, ChangesOf(edits[..|edits| - 1])).0)
  {
    ChangesWellFormed(t, edits[..|edits| - 1]);
    ApplyEditsPlaces(t, edits[..|edits| - 1]);
  }

  lemma {:induction false} AppliedIsFold(t: Tree, edits: seq<Edit>)
    requires Valid(t) && IsDocument(t) && AllAddress(t, edits) && WellFormedChanges(ChangesOf(edits))
    ensures ApplyAll(t, ChangesOf(edits)).0 == Fold(t, edits, NextFn())
  {
    if edits != [] {
      var front := edits[..|edits| - 1];
      AllButLast(t, edits);
      AppliedIsFold(t, front);
      NextIs(t, edits, ApplyAll(t, ChangesOf(front)).0);
    }
  }

  lemma NextStays(t: Tree, u: Tree, e: Edit)
    requires SamePlaces(t, u) && Addresses(t, e)
    ensures SamePlaces(t, Next(u, e))
  {
    SamePlacesAddresses(t, u, e);
    ApplyEdit(u, e);
    SamePlacesTwice(t, u, Next(u, e));
  }

  lemma NextSwaps(t: Tree, u: Tree, e: Edit, f: Edit)
    requires SamePlaces(t, u) && Addresses(t, e) && Addresses(t, f) && FieldOf(e) != FieldOf(f)
    ensures Next(Next(u, e), f) == Next(Next(u, f), e)
  {
    SamePlacesAddresses(t, u, e);
    SamePlacesAddresses(t, u, f);
    AfterIsEdit(u, e, f);
    AfterIsEdit(u, f, e);
    ChangesCommute(u, e, f);
  }

  lemma DifferentFields(edits: seq<Edit>, e: Edit, f: Edit)
    requires Apart(edits) && e in edits && f in edits && e != f
    ensures FieldOf(e) != FieldOf(f)
  {
    var i :| 0 <= i < |edits| && edits[i] == e;
    var j :| 0 <= j < |edits| && edits[j] == f;
    if i < j {
      assert FieldOf(edits[i]) != FieldOf(edits[j]);
    } else {
      assert FieldOf(edits[j]) != FieldOf(edits[i]);
    }
  }

  lemma EditsCommute(t: Tree, edits: seq<Edit>)
    requires AllAddress(t, edits) && Apart(edits)
    ensures Stays(NextFn(), PlacesFn(t), edits) && Swaps(NextFn(), PlacesFn(t), edits)
  {
    forall u, e | PlacesFn(t)(u) && e in edits ensures PlacesFn(t)(NextFn()(u, e)) {
      NextStays(t, u, e);
    }
    forall u, e, f | PlacesFn(t)(u) && e in edits && f in edits && e != f
      ensures NextFn()(NextFn()(u, e), f) == NextFn()(NextFn()(u, f), e)
    {
      DifferentFields(edits, e, f);
      NextSwaps(t, u, e, f);
    }
  }

  lemma ReorderedAddress(t: Tree, edits: seq<Edit>, other: seq<Edit>)
    requires AllAddress(t, edits) && multiset(edits) == multiset(other)
    ensures AllAddress(t, other)
  {
    forall i | 0 <= i < |other| ensures Addresses(t, other[i]) {
      assert other[i] in multiset(edits);
      var k :| 0 <= k < |edits| && edits[k] == other[i];
    }
  }

  /** Changes of pairwise different address fields give the same document in every order. */
  lemma OrderDoesNotMatter(t: Tree, edits: seq<Edit>, other: seq<Edit>)
    requires Valid(t) && IsDocument(t) && AllAddress(t, edits) && Apart(edits) && multiset(edits) == multiset(other)
    ensures WellFormedChanges(ChangesOf(edits)) && WellFormedChanges(ChangesOf(other))
    ensures ApplyAll(t, ChangesOf(edits)).0 == ApplyAll(t, ChangesOf(other)).0
  {
    ReorderedAddress(t, edits, other);
    ChangesWellFormed(t, edits);
    ChangesWellFormed(t, other);
    AppliedIsFold(t, edits);
    AppliedIsFold(t, other);
    EditsCommute(t, edits);
    assert PlacesFn(t)(t);
    FoldReordered(t, edits, other, NextFn(), PlacesFn(t), edits);
  }

  // ----- the proposed changes -----

  lemma ApartAppend(a: seq<Edit>, b: seq<Edit>)
    requires Apart(a) && Apart(b)
    requires forall e, f :: e in a && f in b ==> FieldOf(e) != FieldOf(f)
    ensures Apart(a + b)
  {
    forall i, j | 0 <= i < j < |a + b| ensures FieldOf((a + b)[i]) != FieldOf((a + b)[j]) {
      if i < |a| <= j {
        assert (a + b)[i] in a && (a + b)[j] in b;
      }
    }
  }

  lemma AddressEditsApart(tx: nat, slot: Slot, a: Option<PostalAddress>, analyze: PostalAddress -> Analysis)
    ensures Apart(EditsOfAddress(tx, slot, a, analyze))
    ensures forall e :: e in EditsOfAddress(tx, slot, a, analyze) ==> e.tx == tx && e.slot == slot
  {
  }

  predicate Distinct(slots: seq<Slot>) { forall i, j :: 0 <= i < j < |slots| ==> slots[i] != slots[j] }

  lemma {:induction false} SlotEditsApart(tx: nat, x: Transaction, slots: seq<Slot>, analyze: PostalAddress -> Analysis)
    requires Distinct(slots)
    ensures Apart(EditsOfSlots(tx, x, slots, analyze))
    ensures forall e :: e in EditsOfSlots(tx, x, slots, analyze) ==> e.tx == tx && e.slot in slots
  {
    if slots != [] {
      var front, last := slots[..|slots| - 1], slots[|slots| - 1];
      SlotEditsApart(tx, x, front, analyze);
      AddressEditsApart(tx, last, AddressOf(x, last), analyze);
      ApartAppend(EditsOfSlots(tx, x, front, analyze), EditsOfAddress(tx, last, AddressOf(x, last), analyze));
    }
  }

  lemma {:induction false} TxEditsApart(txs: seq<Transaction>, analyze: PostalAddress -> Analysis)
    ensures Apart(EditsOfTxs(txs, SLOTS, analyze))
    ensures forall e :: e in EditsOfTxs(txs, SLOTS, analyze) ==> e.tx < |txs|
  {
    if txs != [] {
      var n := |txs| - 1;
      TxEditsApart(txs[..n], analyze);
      SlotEditsApart(n, txs[n], SLOTS, analyze);
      ApartAppend(EditsOfTxs(txs[..n], SLOTS, analyze), EditsOfSlots(n, txs[n], SLOTS, analyze));
    }
  }

  /** For every document and provider: the proposed changes address pairwise different fields, so applying
      them in any order gives the same repaired document. */
  lemma ProposedInAnyOrder(t: Tree, analyze: PostalAddress -> Analysis, other: seq<Edit>)
    requires Valid(t) && IsDocument(t) && multiset(other) == multiset(EditsOf(MapMessage(t), analyze))
    ensures Apart(EditsOf(MapMessage(t), analyze))
    ensures WellFormedChanges(ChangesOf(other)) && WellFormedChanges(ChangesOf(EditsOf(MapMessage(t), analyze)))
    ensures ApplyAll(t, ChangesOf(other)).0 == ApplyAll(t, ChangesOf(EditsOf(MapMessage(t), analyze))).0
  {
    var edits := EditsOf(MapMessage(t), analyze);
    TxEditsApart(MapMessage(t).transactions, analyze);
    ProposedAddress(t, analyze);
    OrderDoesNotMatter(t, edits, other);
  }
}
