// Repair candidates: when a candidate may be called validated, and why a repair cannot break the
// content model of the addresses it touches.
module Candidates {
  import opened Strings
  import opened Sorting
  import opened XmlTree
  import opened Pacs008
  import opened RepairLens
  import opened RepairEngine
  import opened XmlRepair

  // ----- the PostalAddress24 content model -----

  /** How often the schema admits a component of an address. */
  function MaxOccurs(name: string): nat { if name == "AdrLine" then 2 else 1 }

  ghost predicate KnownNames(t: Tree, p: Id, order: seq<string>) {
    forall c :: c in KidsOf(t, p) ==> NameOf(t, c) in order
  }

  ghost predicate Occurrences(t: Tree, p: Id) {
    forall n :: |KidsNamed(t, p, n)| <= MaxOccurs(n)
  }

  /** The children of `p` are address components, in schema order, none too often. */
  ghost predicate Conforms(t: Tree, p: Id) {
    Sorted(KidsOf(t, p), RankKey(t.tags)) && KnownNames(t, p, POSTAL_ADDRESS_ORDER) && Occurrences(t, p)
  }

  lemma SortedAgrees<T(!new)>(s: seq<T>, key: T -> int, key': T -> int)
    requires Sorted(s, key) && forall x :: x in s ==> key'(x) == key(x)
    ensures Sorted(s, key')
  {
    forall i, j | 0 <= i < j < |s| ensures key'(s[i]) <= key'(s[j]) {
      assert s[i] in s && s[j] in s;
    }
  }

  lemma SameRank(tags: map<Id, Tag>, tags': map<Id, Tag>)
    requires forall x :: x in tags ==> x in tags' && tags'[x] == tags[x]
    ensures forall x :: x in tags ==> RankKey(tags')(x) == RankKey(tags)(x)
  {
  }

  lemma SameKidsSorted(t: Tree, t': Tree, p: Id, key: Id -> int, key': Id -> int)
    requires Valid(t) && p in t.tags && KidsOf(t', p) == KidsOf(t, p)
    requires forall x :: x in t.tags ==> key'(x) == key(x)
    requires Sorted(KidsOf(t, p), key)
    ensures Sorted(KidsOf(t', p), key')
  {
    assert forall x :: x in KidsOf(t, p) ==> x in t.tags;
    SortedAgrees(KidsOf(t, p), key, key');
  }

  lemma SameKidsKnown(t: Tree, t': Tree, p: Id, order: seq<string>)
    requires Valid(t) && p in t.tags && KidsOf(t', p) == KidsOf(t, p)
    requires forall x :: x in t.tags ==> x in t'.tags && t'.tags[x] == t.tags[x]
    requires KnownNames(t, p, order)
    ensures KnownNames(t', p, order)
  {
    forall c | c in KidsOf(t', p) ensures NameOf(t', c) in order {
      assert NameOf(t', c) == NameOf(t, c);
    }
  }

  lemma InsertElsewhere(t: Tree, a: Id, name: string, value: Option<string>, p: Id)
    requires Valid(t) && a in t.tags && p in t.tags && p != a && Conforms(t, p)
    ensures Conforms(AddLeaf(t, a, name, value), p)
  {
    var t' := AddLeaf(t, a, name, value);
    AddLeafFrame(t, a, name, value);
    SameRank(t.tags, t'.tags);
    SameKidsSorted(t, t', p, RankKey(t.tags), RankKey(t'.tags));
    SameKidsKnown(t, t', p, POSTAL_ADDRESS_ORDER);
    SameOccurrences(t, a, name, value, p);
  }

  lemma SameOccurrences(t: Tree, a: Id, name: string, value: Option<string>, p: Id)
    requires Valid(t) && a in t.tags && p in t.tags && p != a && Occurrences(t, p)
    ensures Occurrences(AddLeaf(t, a, name, value), p)
  {
    forall n ensures KidsNamed(AddLeaf(t, a, name, value), p, n) == KidsNamed(t, p, n) {
      AddLeafKids(t, a, name, value, p, n);
    }
  }

  lemma InsertHere(t: Tree, a: Id, name: string, value: Option<string>)
    requires Valid(t) && a in t.tags && Conforms(t, a) && name in POSTAL_ADDRESS_ORDER && KidsNamed(t, a, name) == []
    ensures Conforms(AddLeaf(t, a, name, value), a)
  {
    AddLeafOrder(t, a, name, value);
    InsertedKnown(t, a, name, value, POSTAL_ADDRESS_ORDER);
    InsertedOccurrences(t, a, name, value);
  }

  lemma InsertedKnown(t: Tree, a: Id, name: string, value: Option<string>, order: seq<string>)
    requires Valid(t) && a in t.tags && KnownNames(t, a, order) && name in order
    ensures KnownNames(AddLeaf(t, a, name, value), a, order)
  {
    var t' := AddLeaf(t, a, name, value);
    NewIdIsFresh(t, a, name);
    LeafListMembers(t, a, name);
    forall c | c in KidsOf(t', a) ensures NameOf(t', c) in order {
      if c != NewId(t, a, name) {
        assert c in KidsOf(t, a);
      }
    }
  }

  lemma InsertedOccurrences(t: Tree, a: Id, name: string, value: Option<string>)
    requires Valid(t) && a in t.tags && Occurrences(t, a) && KidsNamed(t, a, name) == []
    ensures Occurrences(AddLeaf(t, a, name, value), a)
  {
    forall n ensures |KidsNamed(AddLeaf(t, a, name, value), a, n)| <= MaxOccurs(n) {
      AddLeafKids(t, a, name, value, a, n);
    }
  }

  lemma EditConforms(t: Tree, a: Id, leaf: Leaf, value: Option<string>, p: Id)
    requires Valid(t) && a in t.tags && p in t.tags && Conforms(t, p)
    ensures Conforms(EditTree(t, a, LeafName(leaf), value), p)
  {
    var name := LeafName(leaf);
    if KidsNamed(t, a, name) != [] {
      forall n ensures KidsNamed(EditTree(t, a, name, value), p, n) == KidsNamed(t, p, n) {
        SetTextKids(t, KidsNamed(t, a, name)[0], value, p, n);
      }
    } else if p != a {
      InsertElsewhere(t, a, name, value, p);
    } else {
      LeafInOrder(leaf);
      InsertHere(t, a, name, value);
    }
  }

  lemma EditKeepsElements(t: Tree, a: Id, name: string, value: Option<string>, p: Id)
    requires p in t.tags
    ensures p in EditTree(t, a, name, value).tags
  {
  }

  lemma EditTarget(t: Tree, e: Edit) returns (a: Id)
    requires Valid(t) && IsDocument(t) && Addresses(t, e)
    ensures a in t.tags && WellFormedPath(ChangeOf(e).path)
    ensures Apply(t, ChangeOf(e).path, Some(e.value)).0 == EditTree(t, a, LeafName(e.leaf), Some(e.value))
  {
    ApplyIsEdit(t, e.tx, e.slot, e.leaf, Some(e.value));
    ApplyEdit(t, e);
    a := AddressNode(t, TxElements(t)[e.tx], e.slot).value;
  }

  lemma OneEditConforms(t: Tree, e: Edit, p: Id)
    requires Valid(t) && IsDocument(t) && Addresses(t, e) && WellFormedPath(ChangeOf(e).path)
    requires ConformingElement(t, p)
    ensures ConformingElement(Apply(t, ChangeOf(e).path, Some(e.value)).0, p)
  {
    var a := EditTarget(t, e);
    EditConforms(t, a, e.leaf, Some(e.value), p);
    EditKeepsElements(t, a, LeafName(e.leaf), Some(e.value), p);
  }

  /** A place in the document that stays an address component list. */
  ghost predicate ConformingElement(t: Tree, p: Id) { p in t.tags && Conforms(t, p) }

  lemma {:induction false} EditsConform(t: Tree, edits: seq<Edit>, p: Id)
    requires Valid(t) && IsDocument(t) && AllAddress(t, edits) && WellFormedChanges(ChangesOf(edits))
    requires ConformingElement(t, p)
    ensures ConformingElement(ApplyAll(t, ChangesOf(edits)).0, p)
  {
    if edits != [] {
      var front, e := edits[..|edits| - 1], edits[|edits| - 1];
      ChangesWellFormed(t, front);
      EditsConform(t, front, p);
      ApplyEditsPlaces(t, front);
      var t1 := ApplyAll(t, ChangesOf(front)).0;
      ApplyNext(t, edits, t1);
      OneEditConforms(t1, e, p);
    }
  }

  /** An address that met the content model before a repair meets it afterwards, whatever the
      provider proposed. */
  lemma RepairKeepsContentModel(t: Tree, analyze: PostalAddress -> Analysis, p: Id)
    requires Valid(t) && IsDocument(t) && p in t.tags && Conforms(t, p)
    ensures WellFormedChanges(ChangesOf(EditsOf(MapMessage(t), analyze)))
    ensures Conforms(ApplyAll(t, ChangesOf(EditsOf(MapMessage(t), analyze))).0, p)
  {
    RepairIsLens(t, analyze);
    ProposedAddress(t, analyze);
    EditsConform(t, EditsOf(MapMessage(t), analyze), p);
  }

  // ----- candidate status -----

  datatype Severity = Info | Warning | Error | Critical

  datatype CandidateStatus = ValidatedCandidate | NeedsReview

  datatype Candidate = Candidate(
    changes: seq<Change>, applied: seq<ChangeStatus>, document: Option<Tree>, status: CandidateStatus)

  /** `_blocking_findings` */
  predicate Blocking(findings: seq<Severity>) { Error in findings || Critical in findings }

  method BlockingFindings(findings: seq<Severity>) returns (blocking: bool)
    ensures blocking <==> Blocking(findings)
    ensures blocking <==> exists i :: 0 <= i < |findings| && (findings[i] == Error || findings[i] == Critical)
  {
    for i := 0 to |findings|
      invariant forall k :: 0 <= k < i ==> findings[k] != Error && findings[k] != Critical
    {
      if findings[i].Error? || findings[i].Critical? {
        return true;
      }
    }
    return false;
  }

  /** `generate_candidate` for a pacs.008 document and the message read from it. A candidate with
      changes is validated exactly when the repaired document meets the schema and the original
      message with the proposed fields replaced has no blocking finding; without changes it is
      validated unconditionally, and the document is not looked at. */
  method GenerateCandidate(doc: XmlDocument, analyze: PostalAddress -> Analysis,
                           schemaValid: Tree -> bool, evaluate: Message -> seq<Severity>) returns (c: Candidate)
    requires Valid(doc.tree) && IsDocument(doc.tree)
    ensures doc.tree == old(doc.tree)
    ensures c.changes == ChangesOf(EditsOf(MapMessage(doc.tree), analyze)) && AllValidated(c.applied)
    ensures c.changes == [] ==> c.document == None && c.status == ValidatedCandidate
    ensures c.changes != [] ==>
      && c.document.Some?
      && MapMessage(c.document.value) == RepairedMessage(MapMessage(doc.tree), analyze)
      && (c.status == ValidatedCandidate <==>
            schemaValid(c.document.value) && !Blocking(evaluate(RepairedMessage(MapMessage(doc.tree), analyze))))
  {
    var message := MapMessage(doc.tree);
    var changes := ProposeChanges(message, analyze);
    if changes == [] {
      return Candidate([], [], None, ValidatedCandidate);
    }
    RepairIsLens(doc.tree, analyze);
    var repaired, applied := doc.ApplyChanges(changes);
    var findings := evaluate(MapMessage(repaired.tree));
    var blocking := BlockingFindings(findings);
    var status := if schemaValid(repaired.tree) && !blocking then ValidatedCandidate else NeedsReview;
    return Candidate(changes, applied, Some(repaired.tree), status);
  }
}
