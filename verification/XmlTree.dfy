// The element tree that a repair edits: elements are handles, the document holds what lxml keeps
// behind them (tag, attributes, text, ordered children). A Tree is a snapshot of a document;
// XmlRepair.dfy wraps one in a mutable object.
module XmlTree {
  import opened Strings
  import opened Sorting

  /** Comments and processing instructions have no string tag, so no local name. */
  datatype Tag = Named(ns: string, local: string) | Special

  /** A parsed element, or the `ordinal`-th child called `name` that a repair put under `parent`. */
  datatype Id = Parsed(n: nat) | Created(parent: Id, name: string, ordinal: nat)

  datatype Tree = Tree(
    root: Id,
    tags: map<Id, Tag>,
    attrs: map<Id, map<string, string>>,
    text: map<Id, Option<string>>,
    kids: map<Id, seq<Id>>,
    parent: map<Id, Id>)

  // Child order used when a missing element is inserted: the components of PostalAddress24, in the
  // order of the repository's pacs.008.001.08 schema.
  const POSTAL_ADDRESS_ORDER: seq<string> :=
    ["AdrTp", "Dept", "SubDept", "StrtNm", "BldgNb", "PstCd", "TwnNm", "Ctry", "AdrLine"]

  function LocalName(tag: Tag): string {
    if tag.Named? then tag.local else ""
  }

  function NameOf(t: Tree, id: Id): string {
    if id in t.tags then LocalName(t.tags[id]) else ""
  }

  function KidsOf(t: Tree, id: Id): seq<Id> {
    if id in t.kids then t.kids[id] else []
  }

  function TextOf(t: Tree, id: Id): Option<string> {
    if id in t.text then t.text[id] else None
  }

  function HasName(tags: map<Id, Tag>, name: string): Id -> bool {
    id => id in tags && LocalName(tags[id]) == name
  }

  /** The children of `p` with local name `name`, in document order. */
  function KidsNamed(t: Tree, p: Id, name: string): seq<Id> {
    Filter(HasName(t.tags, name), KidsOf(t, p))
  }

  /** A well-formed document: every element is recorded once and has one place in it. */
  ghost predicate Valid(t: Tree) {
    && t.root in t.tags
    && (forall id :: id in t.tags ==> id in t.attrs && id in t.text && id in t.kids)
    && (forall id :: id in t.kids ==> id in t.tags)
    && (forall p, c :: p in t.kids && c in t.kids[p] ==> c in t.tags && c in t.parent && t.parent[c] == p)
    && ListsDistinct(t)
    && (forall id {:trigger Counted(t, id)} :: id in t.tags ==> Counted(t, id))
  }

  ghost predicate ListsDistinct(t: Tree) {
    forall p :: p in t.kids ==> Distinct(t.kids[p])
  }

  /** A created element's ordinal counts the same-name siblings that preceded it. */
  ghost predicate Counted(t: Tree, id: Id) {
    id.Created? ==> id.ordinal < |KidsNamed(t, id.parent, id.name)|
  }

  // ----- paths -----

  function NonEmpty(): string -> bool { s => s != "" }

  /** `[s for s in path.split("/") if s]` */
  function Segments(path: string): (segs: seq<string>)
    ensures forall s :: s in segs ==> s != "" && '/' !in s
  {
    FilterMembers(NonEmpty(), Split(path, '/'));
    SplitPieces(path, '/');
    Filter(NonEmpty(), Split(path, '/'))
  }

  /** The element name in a path step such as `CdtTrfTxInf[2]`. */
  function StepName(step: string): string { step[..Find(step, '[')] }

  function StripBrackets(s: string): string {
    if s != "" && s[|s| - 1] == ']' then StripBrackets(s[..|s| - 1]) else s
  }

  function IndexText(step: string): string {
    var i := Find(step, '[');
    if i == |step| then "" else step[i + 1..]
  }

  /** `int()` accepts the step's index (or there is none). */
  predicate WellFormedStep(step: string) {
    IndexText(step) == "" || (StripBrackets(IndexText(step)) != "" && AllDigits(StripBrackets(IndexText(step))))
  }

  predicate WellFormedSteps(steps: seq<string>) {
    steps == [] || (WellFormedStep(steps[0]) && WellFormedSteps(steps[1..]))
  }

  predicate WellFormedPath(path: string) { WellFormedSteps(Segments(path)) }

  lemma {:induction false} WellFormedPrefix(steps: seq<string>, n: nat)
    requires WellFormedSteps(steps) && n <= |steps|
    ensures WellFormedSteps(steps[..n])
  {
    if n > 0 {
      WellFormedPrefix(steps[1..], n - 1);
      assert steps[..n][1..] == steps[1..][..n - 1];
    }
  }

  function StepIndex(step: string): nat
    requires WellFormedStep(step)
  {
    if IndexText(step) == "" then 0 else ParseDecimal(StripBrackets(IndexText(step)))
  }

  function ChildByLocal(t: Tree, node: Id, step: string): Option<Id>
    requires WellFormedStep(step)
  {
    var matches := KidsNamed(t, node, StepName(step));
    if StepIndex(step) >= |matches| then None else Some(matches[StepIndex(step)])
  }

  /** Follow the steps one child at a time. */
  function Descend(t: Tree, node: Id, steps: seq<string>): Option<Id>
    requires WellFormedSteps(steps)
    decreases |steps|
  {
    if steps == [] then Some(node)
    else match ChildByLocal(t, node, steps[0])
      case None => None
      case Some(child) => Descend(t, child, steps[1..])
  }

  /** The steps below the root: a leading step that names the root is skipped. */
  function StepsBelowRoot(t: Tree, segs: seq<string>): seq<string>
    requires segs != []
  {
    if NameOf(t, t.root) == StepName(segs[0]) then segs[1..] else segs
  }

  function Resolve(t: Tree, segs: seq<string>): Option<Id>
    requires WellFormedSteps(segs)
  {
    if segs == [] then None else Descend(t, t.root, StepsBelowRoot(t, segs))
  }

  function Navigate(t: Tree, path: string): Option<Id>
    requires WellFormedPath(path)
  {
    Resolve(t, Segments(path))
  }

  // ----- edits -----

  function IndexIn(names: seq<string>, name: string): (i: nat)
    ensures i <= |names|
    ensures i < |names| ==> names[i] == name
    ensures i == |names| <==> name !in names
  {
    if names == [] || names[0] == name then 0 else IndexIn(names[1..], name) + 1
  }

  /** Sort key of a child: its place in POSTAL_ADDRESS_ORDER, unknown names last. */
  function RankKey(tags: map<Id, Tag>): Id -> int {
    id => IndexIn(POSTAL_ADDRESS_ORDER, if id in tags then LocalName(tags[id]) else "")
  }

  function SetText(t: Tree, id: Id, value: Option<string>): Tree {
    t.(text := t.text[id := value])
  }

  /** The handle of the next child called `name` under `parent`. */
  function NewId(t: Tree, parent: Id, name: string): Id {
    Created(parent, name, |KidsNamed(t, parent, name)|)
  }

  /** The tags once a child called `name` exists, in its parent's namespace. */
  function LeafTags(t: Tree, parent: Id, name: string): map<Id, Tag> {
    var ns := if parent in t.tags && t.tags[parent].Named? then t.tags[parent].ns else "";
    t.tags[NewId(t, parent, name) := Named(ns, name)]
  }

  /** The parent's children once the new one is appended and the list re-sorted. */
  function LeafList(t: Tree, parent: Id, name: string): seq<Id> {
    StableSort(KidsOf(t, parent) + [NewId(t, parent, name)], RankKey(LeafTags(t, parent, name)))
  }

  /** A new child with its text, at its place in POSTAL_ADDRESS_ORDER. */
  function AddLeaf(t: Tree, parent: Id, name: string, value: Option<string>): Tree {
    var id := NewId(t, parent, name);
    Tree(t.root, LeafTags(t, parent, name), t.attrs[id := map[]], t.text[id := value],
         t.kids[id := []][parent := LeafList(t, parent, name)], t.parent[id := parent])
  }

  /** Where a missing element would be created: the parent's handle, when the source creates one. */
  function MissingParent(t: Tree, segs: seq<string>): Option<Id>
    requires WellFormedSteps(segs)
  {
    if |segs| < 2 then None
    else
      WellFormedPrefix(segs, |segs| - 1);
      match Resolve(t, segs[..|segs| - 1])
      case None => None
      case Some(parent) =>
        if StepName(segs[|segs| - 1]) in POSTAL_ADDRESS_ORDER then Some(parent) else None
  }

  /** One change: overwrite the addressed element's text, or create the missing leaf. */
  function Apply(t: Tree, path: string, after: Option<string>): (Tree, bool)
    requires WellFormedPath(path)
  {
    var segs := Segments(path);
    match Navigate(t, path)
    case Some(id) => (SetText(t, id, after), true)
    case None =>
      match MissingParent(t, segs)
      case Some(parent) => (AddLeaf(t, parent, StepName(segs[|segs| - 1]), after), true)
      case None => (t, false)
  }

  // ----- navigation stays inside the document -----

  lemma KidsNamedInside(t: Tree, p: Id, name: string)
    ensures forall c :: c in KidsNamed(t, p, name) <==> c in KidsOf(t, p) && c in t.tags && NameOf(t, c) == name
  {
    FilterMembers(HasName(t.tags, name), KidsOf(t, p));
  }

  lemma {:induction false} DescendInside(t: Tree, node: Id, steps: seq<string>)
    requires Valid(t) && node in t.tags
    requires WellFormedSteps(steps)
    ensures Descend(t, node, steps).Some? ==> Descend(t, node, steps).value in t.tags
    decreases |steps|
  {
    if steps != [] {
      var c := ChildByLocal(t, node, steps[0]);
      if c.Some? {
        KidsNamedInside(t, node, StepName(steps[0]));
        assert c.value in KidsNamed(t, node, StepName(steps[0]));
        DescendInside(t, c.value, steps[1..]);
      }
    }
  }

  // ----- how a new leaf changes the document -----

  /** Children with the same name are distinct elements. */
  lemma KidsNamedDistinct(t: Tree, p: Id, name: string, i: nat, j: nat)
    requires Valid(t)
    requires i < j < |KidsNamed(t, p, name)|
    ensures KidsNamed(t, p, name)[i] != KidsNamed(t, p, name)[j]
  {
    DistinctFilter(HasName(t.tags, name), KidsOf(t, p));
    DistinctAt(KidsNamed(t, p, name), i, j);
  }

  lemma {:induction false} IndexInAt(names: seq<string>, i: nat)
    requires i < |names| && forall j :: 0 <= j < i ==> names[j] != names[i]
    ensures IndexIn(names, names[i]) == i
  {
    if i > 0 {
      IndexInAt(names[1..], i - 1);
    }
  }

  lemma NewIdIsFresh(t: Tree, parent: Id, name: string)
    requires Valid(t)
    ensures NewId(t, parent, name) !in t.tags
    ensures forall p :: NewId(t, parent, name) !in KidsOf(t, p)
  {
    assert !Counted(t, NewId(t, parent, name));
  }

  lemma LeafListKids(t: Tree, parent: Id, name: string, n: string)
    requires NewId(t, parent, name) !in KidsOf(t, parent)
    ensures Filter(HasName(LeafTags(t, parent, name), n), LeafList(t, parent, name))
      == KidsNamed(t, parent, n) + if n == name then [NewId(t, parent, name)] else []
  {
    var tags, id := LeafTags(t, parent, name), NewId(t, parent, name);
    FilterAgrees(HasName(t.tags, n), HasName(tags, n), KidsOf(t, parent));
    SortKeepsOrder(KidsOf(t, parent) + [id], RankKey(tags), HasName(tags, n));
    FilterAppend(HasName(tags, n), KidsOf(t, parent), [id]);
    FilterCons(HasName(tags, n), id, []);
  }

  /** Inserting a leaf leaves every same-name child list as it was, except its own, which it ends. */
  lemma AddLeafKids(t: Tree, parent: Id, name: string, value: Option<string>, p: Id, n: string)
    requires Valid(t) && parent in t.tags && p in t.tags
    ensures KidsNamed(AddLeaf(t, parent, name, value), p, n)
      == KidsNamed(t, p, n) + if p == parent && n == name then [NewId(t, parent, name)] else []
  {
    NewIdIsFresh(t, parent, name);
    if p == parent {
      LeafListKids(t, parent, name, n);
    } else {
      FilterAgrees(HasName(t.tags, n), HasName(LeafTags(t, parent, name), n), KidsOf(t, p));
    }
  }

  lemma LeafListMembers(t: Tree, parent: Id, name: string)
    requires Valid(t) && parent in t.tags
    ensures Distinct(LeafList(t, parent, name))
    ensures forall c :: c in LeafList(t, parent, name) <==> c in t.kids[parent] || c == NewId(t, parent, name)
  {
    NewIdIsFresh(t, parent, name);
    assert KidsOf(t, parent) == t.kids[parent];
    DistinctAppend(KidsOf(t, parent), NewId(t, parent, name));
    DistinctSort(KidsOf(t, parent) + [NewId(t, parent, name)], RankKey(LeafTags(t, parent, name)));
    SortMembers(KidsOf(t, parent) + [NewId(t, parent, name)], RankKey(LeafTags(t, parent, name)));
  }

  lemma AddLeafCounted(t: Tree, parent: Id, name: string, value: Option<string>)
    requires Valid(t) && parent in t.tags
    ensures var t' := AddLeaf(t, parent, name, value);
      forall id {:trigger Counted(t', id)} :: id in t'.tags ==> Counted(t', id)
  {
    var t' := AddLeaf(t, parent, name, value);
    forall id | id in t'.tags ensures Counted(t', id) {
      if id == NewId(t, parent, name) {
        AddLeafKids(t, parent, name, value, parent, name);
      } else {
        assert Counted(t, id);
        if id.Created? {
          assert KidsNamed(t, id.parent, id.name) != [];
          AddLeafKids(t, parent, name, value, id.parent, id.name);
        }
      }
    }
  }

  lemma GraftedLists(t: Tree, t': Tree, parent: Id, id: Id, list: seq<Id>)
    requires ListsDistinct(t) && Distinct(list)
    requires t'.kids == t.kids[id := []][parent := list]
    ensures ListsDistinct(t')
  {
  }

  lemma GraftedKid(t: Tree, t': Tree, parent: Id, id: Id, list: seq<Id>, p: Id, c: Id)
    requires Valid(t) && parent in t.tags && id !in t.tags
    requires t'.parent == t.parent[id := parent]
    requires t'.kids == t.kids[id := []][parent := list]
    requires c in list <==> c in t.kids[parent] || c == id
    requires p in t'.kids && c in t'.kids[p]
    ensures (c in t.tags || c == id) && c in t'.parent && t'.parent[c] == p
  {
    if p != parent && p != id {
      assert c in t.kids[p];
    }
  }

  /** A document stays well formed when a new element joins one child list. */
  lemma GraftValid(t: Tree, t': Tree, parent: Id, id: Id, list: seq<Id>)
    requires Valid(t) && parent in t.tags && id !in t.tags
    requires t'.root == t.root && t'.parent == t.parent[id := parent]
    requires t'.kids == t.kids[id := []][parent := list]
    requires forall x :: x in t'.tags <==> x in t.tags || x == id
    requires forall x :: x in t'.tags ==> x in t'.attrs && x in t'.text
    requires ListsDistinct(t') && forall c :: c in list <==> c in t.kids[parent] || c == id
    requires forall x {:trigger Counted(t', x)} :: x in t'.tags ==> Counted(t', x)
    ensures Valid(t')
  {
    forall p, c | p in t'.kids && c in t'.kids[p]
      ensures c in t'.tags && c in t'.parent && t'.parent[c] == p
    {
      GraftedKid(t, t', parent, id, list, p, c);
    }
  }

  /** Inserting a leaf keeps the document well formed. */
  lemma AddLeafValid(t: Tree, parent: Id, name: string, value: Option<string>)
    requires Valid(t) && parent in t.tags
    ensures Valid(AddLeaf(t, parent, name, value))
  {
    var t', id, list := AddLeaf(t, parent, name, value), NewId(t, parent, name), LeafList(t, parent, name);
    NewIdIsFresh(t, parent, name);
    LeafListMembers(t, parent, name);
    AddLeafCounted(t, parent, name, value);
    GraftedLists(t, t', parent, id, list);
    GraftValid(t, t', parent, id, list);
  }

  /** Inserting a leaf adds one element, which carries the value, and changes no other element. */
  lemma AddLeafFrame(t: Tree, parent: Id, name: string, value: Option<string>)
    requires Valid(t) && parent in t.tags
    ensures var t', id := AddLeaf(t, parent, name, value), NewId(t, parent, name);
      && t'.root == t.root && id !in t.tags
      && (forall x :: x in t'.tags <==> x in t.tags || x == id)
      && t'.text == t.text[id := value]
      && (forall x :: x in t.tags ==> t'.tags[x] == t.tags[x] && t'.attrs[x] == t.attrs[x])
      && (forall p :: p in t.kids && p != parent ==> t'.kids[p] == t.kids[p])
  {
    NewIdIsFresh(t, parent, name);
  }

  /** Inserting a leaf leaves its parent's children ordered: the old ones and the leaf. */
  lemma AddLeafOrder(t: Tree, parent: Id, name: string, value: Option<string>)
    requires Valid(t) && parent in t.tags
    ensures var t' := AddLeaf(t, parent, name, value);
      && Sorted(KidsOf(t', parent), RankKey(t'.tags))
      && multiset(KidsOf(t', parent)) == multiset(KidsOf(t, parent) + [NewId(t, parent, name)])
  {
    SortIsSorted(KidsOf(t, parent) + [NewId(t, parent, name)], RankKey(LeafTags(t, parent, name)));
  }
}
