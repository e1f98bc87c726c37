// Repair candidates: the changes an address provider proposes for a message, the document they
// are applied to, and the lens law between the two. Re-reading the repaired document gives the
// original message with exactly the proposed fields replaced.
module RepairEngine {
  import opened Strings
  import opened Sorting
  import opened XmlTree
  import opened Pacs008
  import opened RepairLens

  /** What an address provider resolves for one address. */
  datatype Analysis = Analysis(countryCode: Option<string>, townName: Option<string>)

  datatype Change = Change(path: string, before: Option<string>, after: Option<string>)

  datatype ChangeStatus = Validated | Rejected

  /** A proposed value for one leaf of one transaction's address. */
  datatype Edit = Edit(tx: nat, slot: Slot, leaf: Leaf, address: PostalAddress, value: string)

  // ----- which changes are proposed -----

  function OrElse(a: Option<string>, b: Option<string>): Option<string> {
    if a.Some? && a.value != "" then a else b
  }

  function RawField(a: PostalAddress, leaf: Leaf): Option<string> {
    match leaf
    case Ctry => OrElse(Get(a.originalFields, "Ctry"), a.country)
    case TwnNm => OrElse(Get(a.originalFields, "TwnNm"), a.townName)
  }

  function Resolved(r: Analysis, leaf: Leaf): Option<string> {
    if leaf.Ctry? then r.countryCode else r.townName
  }

  /** A leaf changes when the provider resolved a value and it differs from the raw one. */
  predicate Proposes(a: PostalAddress, r: Analysis, leaf: Leaf) {
    Resolved(r, leaf).Some? && Resolved(r, leaf).value != "" && RawField(a, leaf) != Resolved(r, leaf)
  }

  function EditsOfLeaf(tx: nat, slot: Slot, a: PostalAddress, r: Analysis, leaf: Leaf): seq<Edit> {
    if Proposes(a, r, leaf) then [Edit(tx, slot, leaf, a, Resolved(r, leaf).value)] else []
  }

  function EditsOfAddress(tx: nat, slot: Slot, a: Option<PostalAddress>, analyze: PostalAddress -> Analysis): seq<Edit> {
    if a.None? || a.value.sourcePath == "" then []
    else EditsOfLeaf(tx, slot, a.value, analyze(a.value), Ctry) + EditsOfLeaf(tx, slot, a.value, analyze(a.value), TwnNm)
  }

  /** The order in which `addresses` lists a transaction's addresses. */
  const SLOTS: seq<Slot> := [Dbtr, Cdtr, DbtrAgt, CdtrAgt]

  function EditsOfSlots(tx: nat, x: Transaction, slots: seq<Slot>, analyze: PostalAddress -> Analysis): seq<Edit> {
    if slots == [] then []
    else
      var last := slots[|slots| - 1];
      EditsOfSlots(tx, x, slots[..|slots| - 1], analyze) + EditsOfAddress(tx, last, AddressOf(x, last), analyze)
  }

  /** The edits proposed for a list of transactions. */
  function EditsOfTxs(txs: seq<Transaction>, slots: seq<Slot>, analyze: PostalAddress -> Analysis): seq<Edit> {
    if txs == [] then []
    else
      var n := |txs| - 1;
      EditsOfTxs(txs[..n], slots, analyze) + EditsOfSlots(n, txs[n], slots, analyze)
  }

  function EditsOf(msg: Message, analyze: PostalAddress -> Analysis): seq<Edit> {
    EditsOfTxs(msg.transactions, SLOTS, analyze)
  }

  function ChangeOf(e: Edit): Change {
    Change(LeafPath(e.address.sourcePath, e.leaf), RawField(e.address, e.leaf), Some(e.value))
  }

  function ChangesOf(edits: seq<Edit>): seq<Change> {
    if edits == [] then [] else ChangesOf(edits[..|edits| - 1]) + [ChangeOf(edits[|edits| - 1])]
  }

  lemma {:induction false} ChangesOfAppend(a: seq<Edit>, b: seq<Edit>)
    ensures ChangesOf(a + b) == ChangesOf(a) + ChangesOf(b)
  {
    if b == [] {
      assert a + b == a;
    } else {
      assert (a + b)[..|a + b| - 1] == a + b[..|b| - 1];
      ChangesOfAppend(a, b[..|b| - 1]);
    }
  }

  lemma ChangesOfOne(e: Edit)
    ensures ChangesOf([e]) == [ChangeOf(e)]
  {
    assert [e][..0] == [];
  }

  lemma ProposedNext(txs: seq<Transaction>, i: nat, slots: seq<Slot>, analyze: PostalAddress -> Analysis)
    requires i < |txs|
    ensures ChangesOf(EditsOfTxs(txs[..i + 1], slots, analyze))
      == ChangesOf(EditsOfTxs(txs[..i], slots, analyze)) + ChangesOf(EditsOfSlots(i, txs[i], slots, analyze))
  {
    assert txs[..i + 1][..i] == txs[..i];
    ChangesOfAppend(EditsOfTxs(txs[..i], slots, analyze), EditsOfSlots(i, txs[i], slots, analyze));
  }

  /** The change list that `generate_candidate` builds. */
  method ProposeChanges(msg: Message, analyze: PostalAddress -> Analysis) returns (changes: seq<Change>)
    ensures changes == ChangesOf(EditsOf(msg, analyze))
  {
    changes := [];
    var txs := msg.transactions;
    for i := 0 to |txs|
      invariant changes == ChangesOf(EditsOfTxs(txs[..i], SLOTS, analyze))
    {
      var more := ProposeForTransaction(i, txs[i], SLOTS, analyze);
      ProposedNext(txs, i, SLOTS, analyze);
      changes := changes + more;
    }
    assert txs[..|txs|] == txs;
  }

  method ProposeForTransaction(i: nat, tx: Transaction, slots: seq<Slot>, analyze: PostalAddress -> Analysis)
    returns (changes: seq<Change>)
    ensures changes == ChangesOf(EditsOfSlots(i, tx, slots, analyze))
  {
    changes := [];
    for k := 0 to |slots|
      invariant changes == ChangesOf(EditsOfSlots(i, tx, slots[..k], analyze))
    {
      var more := ProposeForAddress(i, slots[k], AddressOf(tx, slots[k]), analyze);
      assert slots[..k + 1][..k] == slots[..k];
      ChangesOfAppend(EditsOfSlots(i, tx, slots[..k], analyze), EditsOfAddress(i, slots[k], AddressOf(tx, slots[k]), analyze));
      changes := changes + more;
    }
    assert slots[..|slots|] == slots;
  }

  method ProposeForAddress(tx: nat, slot: Slot, a: Option<PostalAddress>, analyze: PostalAddress -> Analysis)
    returns (changes: seq<Change>)
    ensures changes == ChangesOf(EditsOfAddress(tx, slot, a, analyze))
  {
    changes := [];
    if a.None? || a.value.sourcePath == "" {
      return;
    }
    var r := analyze(a.value);
    var country, town := EditsOfLeaf(tx, slot, a.value, r, Ctry), EditsOfLeaf(tx, slot, a.value, r, TwnNm);
    if Proposes(a.value, r, Ctry) {
      changes := changes + [Change(a.value.sourcePath + "/Ctry", RawField(a.value, Ctry), r.countryCode)];
      ChangesOfOne(country[0]);
    }
    if Proposes(a.value, r, TwnNm) {
      changes := changes + [Change(a.value.sourcePath + "/TwnNm", RawField(a.value, TwnNm), r.townName)];
      ChangesOfOne(town[0]);
    }
    assert "/Ctry" == "/" + "Ctry" && "/TwnNm" == "/" + "TwnNm";
    ChangesOfAppend(country, town);
  }

  // ----- applying a change list -----

  predicate WellFormedChanges(changes: seq<Change>) {
    forall i :: 0 <= i < |changes| ==> WellFormedPath(changes[i].path)
  }

  /** `apply_changes`: the repaired tree and the outcome of each change. */
  function ApplyAll(t: Tree, changes: seq<Change>): (Tree, seq<ChangeStatus>)
    requires WellFormedChanges(changes)
  {
    if changes == [] then (t, [])
    else
      var (t1, done) := ApplyAll(t, changes[..|changes| - 1]);
      var (t2, ok) := Apply(t1, changes[|changes| - 1].path, changes[|changes| - 1].after);
      (t2, done + [if ok then Validated else Rejected])
  }

  // ----- the canonical side of an edit list -----

  function PatchTx(x: Transaction, edits: seq<Edit>): Transaction {
    if edits == [] then x
    else
      var e := edits[|edits| - 1];
      WithSlotLeaf(PatchTx(x, edits[..|edits| - 1]), e.slot, e.leaf, TextValue(Some(e.value)))
  }

  function PatchTxs(txs: seq<Transaction>, edits: seq<Edit>): (r: seq<Transaction>)
    ensures |r| == |txs|
  {
    if edits == [] then txs
    else
      var e := edits[|edits| - 1];
      WithTxLeaf(PatchTxs(txs, edits[..|edits| - 1]), e.tx, e.slot, e.leaf, TextValue(Some(e.value)))
  }

  function Patch(msg: Message, edits: seq<Edit>): Message {
    msg.(transactions := PatchTxs(msg.transactions, edits))
  }

  // ----- the intended result, address by address -----

  function RepairedLeaf(a: PostalAddress, original: PostalAddress, r: Analysis, leaf: Leaf): PostalAddress {
    if Proposes(original, r, leaf) then WithLeaf(a, leaf, TextValue(Resolved(r, leaf))) else a
  }

  /** An address with exactly its proposed fields replaced. */
  function RepairedAddress(a: PostalAddress, r: Analysis): PostalAddress {
    RepairedLeaf(RepairedLeaf(a, a, r, Ctry), a, r, TwnNm)
  }

  function RepairedParty(p: Option<Party>, analyze: PostalAddress -> Analysis): Option<Party> {
    if PartyAddress(p).None? then p
    else Some(p.value.(address := Some(RepairedAddress(PartyAddress(p).value, analyze(PartyAddress(p).value)))))
  }

  function RepairedAgent(p: Option<Agent>, analyze: PostalAddress -> Analysis): Option<Agent> {
    if AgentAddress(p).None? then p
    else Some(p.value.(address := Some(RepairedAddress(AgentAddress(p).value, analyze(AgentAddress(p).value)))))
  }

  function RepairedTx(x: Transaction, analyze: PostalAddress -> Analysis): Transaction {
    x.(debtor := RepairedParty(x.debtor, analyze), creditor := RepairedParty(x.creditor, analyze),
       debtorAgent := RepairedAgent(x.debtorAgent, analyze), creditorAgent := RepairedAgent(x.creditorAgent, analyze))
  }

  /** The original message with exactly the proposed fields replaced. */
  function RepairedMessage(msg: Message, analyze: PostalAddress -> Analysis): Message {
    msg.(transactions := seq(|msg.transactions|, i requires 0 <= i < |msg.transactions| => RepairedTx(msg.transactions[i], analyze)))
  }

  // ----- the lens law -----

  /** An edit addresses an element of the document, by the path printed for it. */
  ghost predicate Addresses(t: Tree, e: Edit) {
    && e.tx < |TxElements(t)|
    && AddressNode(t, TxElements(t)[e.tx], e.slot).Some?
    && e.address.sourcePath == SlotPath(e.tx, e.slot)
  }

  ghost predicate AllAddress(t: Tree, edits: seq<Edit>) {
    forall i :: 0 <= i < |edits| ==> Addresses(t, edits[i])
  }

  lemma AddressesWellFormed(t: Tree, e: Edit)
    requires IsDocument(t) && Addresses(t, e)
    ensures WellFormedPath(ChangeOf(e).path)
  {
    NavigateLeaf(t, e.tx, e.slot, e.leaf);
  }

  lemma {:induction false} ChangesOfAt(edits: seq<Edit>, i: nat)
    requires i < |edits|
    ensures |ChangesOf(edits)| == |edits| && ChangesOf(edits)[i] == ChangeOf(edits[i])
  {
    if |edits| > 1 {
      ChangesOfAt(edits[..|edits| - 1], if i < |edits| - 1 then i else 0);
    } else {
      assert edits[..|edits| - 1] == [];
    }
  }

  lemma ChangesWellFormed(t: Tree, edits: seq<Edit>)
    requires IsDocument(t) && AllAddress(t, edits)
    ensures |ChangesOf(edits)| == |edits| && WellFormedChanges(ChangesOf(edits))
  {
    forall i | 0 <= i < |edits|
      ensures |ChangesOf(edits)| == |edits| && WellFormedPath(ChangesOf(edits)[i].path)
    {
      ChangesOfAt(edits, i);
      AddressesWellFormed(t, edits[i]);
    }
    if edits != [] {
      ChangesOfAt(edits, 0);
    }
  }

  /** The shape of the document is the same to every path that names no edited leaf. */
  ghost predicate SamePlaces(t: Tree, t': Tree) {
    && Valid(t') && t'.root == t.root && IsDocument(t')
    && TxElements(t') == TxElements(t)
    && (forall tx, slot :: tx in TxElements(t) ==> AddressNode(t', tx, slot) == AddressNode(t, tx, slot))
  }

  lemma EditKeepsPlaces(t: Tree, t': Tree, a: Id, leaf: Leaf, value: Option<string>)
    requires LeafEdit(t, t', a, LeafName(leaf), value) && Valid(t') && IsDocument(t)
    ensures SamePlaces(t, t')
  {
    TxElementsAfter(t, t', a, leaf, value);
    forall tx, slot | tx in TxElements(t) ensures AddressNode(t', tx, slot) == AddressNode(t, tx, slot) {
      NodesAfter(t, t', a, leaf, value, tx, slot);
    }
  }

  /** Applying one edit's change replaces one field of what the adapter reads. */
  lemma ApplyEdit(t: Tree, e: Edit)
    requires Valid(t) && IsDocument(t) && Addresses(t, e)
    ensures WellFormedPath(ChangeOf(e).path)
    ensures var r := Apply(t, ChangeOf(e).path, Some(e.value));
      && r.1 && SamePlaces(t, r.0)
      && LeafEdit(t, r.0, AddressNode(t, TxElements(t)[e.tx], e.slot).value, LeafName(e.leaf), Some(e.value))
      && MapMessage(r.0) == MapMessage(t).(
           transactions := WithTxLeaf(MapMessage(t).transactions, e.tx, e.slot, e.leaf, TextValue(Some(e.value))))
  {
    var a := AddressNode(t, TxElements(t)[e.tx], e.slot).value;
    var t' := EditTree(t, a, LeafName(e.leaf), Some(e.value));
    ApplyIsEdit(t, e.tx, e.slot, e.leaf, Some(e.value));
    AddressHolder(t, TxElements(t)[e.tx], e.slot, a);
    EditIsLeafEdit(t, a, LeafName(e.leaf), Some(e.value));
    EditKeepsPlaces(t, t', a, e.leaf, Some(e.value));
    MessageAfter(t, t', a, e.leaf, Some(e.value), e.tx, e.slot);
  }

  lemma SamePlacesAddresses(t: Tree, t': Tree, e: Edit)
    requires SamePlaces(t, t') && Addresses(t, e)
    ensures Addresses(t', e)
  {
  }

  ghost predicate AllValidated(done: seq<ChangeStatus>) {
    forall i :: 0 <= i < |done| ==> done[i] == Validated
  }

  lemma SamePlacesTwice(t: Tree, t1: Tree, t2: Tree)
    requires SamePlaces(t, t1) && SamePlaces(t1, t2)
    ensures SamePlaces(t, t2)
  {
  }

  lemma ApplyLast(t: Tree, changes: seq<Change>, c: Change)
    requires WellFormedChanges(changes + [c])
    ensures WellFormedChanges(changes) && WellFormedPath(c.path)
    ensures var r, s := ApplyAll(t, changes), ApplyAll(t, changes + [c]);
      && s.0 == Apply(r.0, c.path, c.after).0
      && s.1 == r.1 + [if Apply(r.0, c.path, c.after).1 then Validated else Rejected]
  {
    assert (changes + [c])[..|changes|] == changes;
    assert forall i :: 0 <= i < |changes| ==> changes[i] == (changes + [c])[i];
    assert (changes + [c])[|changes|] == c;
  }

  lemma ApplyNext(t: Tree, edits: seq<Edit>, t1: Tree)
    requires edits != [] && IsDocument(t) && AllAddress(t, edits) && SamePlaces(t, t1)
    requires WellFormedChanges(ChangesOf(edits)) && WellFormedChanges(ChangesOf(edits[..|edits| - 1]))
    requires ApplyAll(t, ChangesOf(edits[..|edits| - 1])).0 == t1
    ensures var e := edits[|edits| - 1]; var r := ApplyAll(t, ChangesOf(edits));
      && Addresses(t1, e) && WellFormedPath(ChangeOf(e).path)
      && r.0 == Apply(t1, ChangeOf(e).path, Some(e.value)).0
      && r.1 == ApplyAll(t, ChangesOf(edits[..|edits| - 1])).1 + [Validated]
  {
    var e := edits[|edits| - 1];
    assert Addresses(t, e);
    SamePlacesAddresses(t, t1, e);
    ApplyEdit(t1, e);
    ApplyLast(t, ChangesOf(edits[..|edits| - 1]), ChangeOf(e));
  }

  lemma {:induction false} ApplyEditsPlaces(t: Tree, edits: seq<Edit>)
    requires Valid(t) && IsDocument(t) && AllAddress(t, edits) && WellFormedChanges(ChangesOf(edits))
    ensures SamePlaces(t, ApplyAll(t, ChangesOf(edits)).0)
  {
    if edits != [] {
      var front, e := edits[..|edits| - 1], edits[|edits| - 1];
      ChangesWellFormed(t, front);
      ApplyEditsPlaces(t, front);
      var t1 := ApplyAll(t, ChangesOf(front)).0;
      ApplyNext(t, edits, t1);
      ApplyEdit(t1, e);
      SamePlacesTwice(t, t1, ApplyAll(t, ChangesOf(edits)).0);
    }
  }

  lemma AppendValidated(done: seq<ChangeStatus>)
    requires AllValidated(done)
    ensures AllValidated(done + [Validated])
  {
  }

  /** Applying an edit list rejects nothing. */
  lemma {:induction false} ApplyEditsValidated(t: Tree, edits: seq<Edit>)
    requires Valid(t) && IsDocument(t) && AllAddress(t, edits) && WellFormedChanges(ChangesOf(edits))
    ensures AllValidated(ApplyAll(t, ChangesOf(edits)).1) && |ApplyAll(t, ChangesOf(edits)).1| == |edits|
  {
    if edits != [] {
      var front := edits[..|edits| - 1];
      ChangesWellFormed(t, front);
      ApplyEditsPlaces(t, front);
      ApplyEditsValidated(t, front);
      var r := ApplyAll(t, ChangesOf(front));
      ApplyNext(t, edits, r.0);
      AppendValidated(r.1);
    }
  }

  /** Applying an edit list patches what the adapter reads, field by field. */
  lemma {:induction false} ApplyEditsRead(t: Tree, edits: seq<Edit>)
    requires Valid(t) && IsDocument(t) && AllAddress(t, edits) && WellFormedChanges(ChangesOf(edits))
    ensures MapMessage(ApplyAll(t, ChangesOf(edits)).0) == Patch(MapMessage(t), edits)
  {
    if edits != [] {
      var front, e := edits[..|edits| - 1], edits[|edits| - 1];
      ChangesWellFormed(t, front);
      ApplyEditsPlaces(t, front);
      ApplyEditsRead(t, front);
      var t1 := ApplyAll(t, ChangesOf(front)).0;
      ApplyNext(t, edits, t1);
      ApplyEdit(t1, e);
    }
  }

  // ----- the proposed edits, gathered address by address -----

  lemma {:induction false} PatchTxAppend(x: Transaction, a: seq<Edit>, b: seq<Edit>)
    ensures PatchTx(x, a + b) == PatchTx(PatchTx(x, a), b)
  {
    if b == [] {
      assert a + b == a;
    } else {
      assert (a + b)[..|a + b| - 1] == a + b[..|b| - 1];
      PatchTxAppend(x, a, b[..|b| - 1]);
    }
  }

  function WithAddress(x: Transaction, slot: Slot, a: PostalAddress): Transaction
    requires AddressOf(x, slot).Some?
  {
    match slot
    case Dbtr => x.(debtor := Some(x.debtor.value.(address := Some(a))))
    case Cdtr => x.(creditor := Some(x.creditor.value.(address := Some(a))))
    case DbtrAgt => x.(debtorAgent := Some(x.debtorAgent.value.(address := Some(a))))
    case CdtrAgt => x.(creditorAgent := Some(x.creditorAgent.value.(address := Some(a))))
  }

  lemma PatchLeaf(x: Transaction, slot: Slot, current: PostalAddress, tx: nat, a: PostalAddress, r: Analysis, leaf: Leaf)
    requires AddressOf(x, slot) == Some(current)
    ensures PatchTx(x, EditsOfLeaf(tx, slot, a, r, leaf)) == WithAddress(x, slot, RepairedLeaf(current, a, r, leaf))
    ensures AddressOf(PatchTx(x, EditsOfLeaf(tx, slot, a, r, leaf)), slot) == Some(RepairedLeaf(current, a, r, leaf))
  {
    var es := EditsOfLeaf(tx, slot, a, r, leaf);
    if es != [] {
      assert es[..|es| - 1] == [];
    }
  }

  lemma PatchAddress(x: Transaction, slot: Slot, tx: nat, a: PostalAddress, analyze: PostalAddress -> Analysis)
    requires AddressOf(x, slot) == Some(a) && a.sourcePath != ""
    ensures PatchTx(x, EditsOfAddress(tx, slot, Some(a), analyze)) == WithAddress(x, slot, RepairedAddress(a, analyze(a)))
  {
    var r := analyze(a);
    PatchTxAppend(x, EditsOfLeaf(tx, slot, a, r, Ctry), EditsOfLeaf(tx, slot, a, r, TwnNm));
    PatchLeaf(x, slot, a, tx, a, r, Ctry);
    var x1 := PatchTx(x, EditsOfLeaf(tx, slot, a, r, Ctry));
    PatchLeaf(x1, slot, RepairedLeaf(a, a, r, Ctry), tx, a, r, TwnNm);
  }

  /** Every address carries a printed path. */
  ghost predicate PathsPrinted(x: Transaction) {
    forall slot :: AddressOf(x, slot).Some? ==> AddressOf(x, slot).value.sourcePath != ""
  }

  function RepairedSlot(x: Transaction, current: Transaction, slot: Slot, analyze: PostalAddress -> Analysis): Transaction
    requires AddressOf(current, slot) == AddressOf(x, slot)
  {
    if AddressOf(x, slot).None? then current
    else WithAddress(current, slot, RepairedAddress(AddressOf(x, slot).value, analyze(AddressOf(x, slot).value)))
  }

  lemma PatchSlot(x: Transaction, current: Transaction, slot: Slot, tx: nat, analyze: PostalAddress -> Analysis)
    requires PathsPrinted(x) && AddressOf(current, slot) == AddressOf(x, slot)
    ensures PatchTx(current, EditsOfAddress(tx, slot, AddressOf(x, slot), analyze)) == RepairedSlot(x, current, slot, analyze)
  {
    if AddressOf(x, slot).Some? {
      PatchAddress(current, slot, tx, AddressOf(x, slot).value, analyze);
    }
  }

  lemma EditsOfFourSlots(tx: nat, x: Transaction, analyze: PostalAddress -> Analysis)
    ensures EditsOfSlots(tx, x, SLOTS, analyze)
      == EditsOfAddress(tx, Dbtr, AddressOf(x, Dbtr), analyze) + EditsOfAddress(tx, Cdtr, AddressOf(x, Cdtr), analyze)
       + EditsOfAddress(tx, DbtrAgt, AddressOf(x, DbtrAgt), analyze) + EditsOfAddress(tx, CdtrAgt, AddressOf(x, CdtrAgt), analyze)
  {
    var s1, s2, s3 := [Dbtr], [Dbtr, Cdtr], [Dbtr, Cdtr, DbtrAgt];
    assert SLOTS[..3] == s3 && s3[..2] == s2 && s2[..1] == s1 && s1[..0] == [];
    assert EditsOfSlots(tx, x, s1, analyze) == EditsOfAddress(tx, Dbtr, AddressOf(x, Dbtr), analyze);
    assert EditsOfSlots(tx, x, s2, analyze)
      == EditsOfSlots(tx, x, s1, analyze) + EditsOfAddress(tx, Cdtr, AddressOf(x, Cdtr), analyze);
    assert EditsOfSlots(tx, x, s3, analyze)
      == EditsOfSlots(tx, x, s2, analyze) + EditsOfAddress(tx, DbtrAgt, AddressOf(x, DbtrAgt), analyze);
  }

  /** The edits of one transaction replace exactly the proposed fields of its addresses. */
  lemma PatchTransaction(x: Transaction, tx: nat, analyze: PostalAddress -> Analysis)
    requires PathsPrinted(x)
    ensures PatchTx(x, EditsOfSlots(tx, x, SLOTS, analyze)) == RepairedTx(x, analyze)
  {
    EditsOfFourSlots(tx, x, analyze);
    var e0 := EditsOfAddress(tx, Dbtr, AddressOf(x, Dbtr), analyze);
    var e1 := EditsOfAddress(tx, Cdtr, AddressOf(x, Cdtr), analyze);
    var e2 := EditsOfAddress(tx, DbtrAgt, AddressOf(x, DbtrAgt), analyze);
    var e3 := EditsOfAddress(tx, CdtrAgt, AddressOf(x, CdtrAgt), analyze);
    PatchTxAppend(x, e0 + e1 + e2, e3);
    PatchTxAppend(x, e0 + e1, e2);
    PatchTxAppend(x, e0, e1);
    PatchSlot(x, x, Dbtr, tx, analyze);
    var x1 := RepairedSlot(x, x, Dbtr, analyze);
    PatchSlot(x, x1, Cdtr, tx, analyze);
    var x2 := RepairedSlot(x, x1, Cdtr, analyze);
    PatchSlot(x, x2, DbtrAgt, tx, analyze);
    var x3 := RepairedSlot(x, x2, DbtrAgt, analyze);
    PatchSlot(x, x3, CdtrAgt, tx, analyze);
  }

  lemma {:induction false} EditsOfSlotsTx(tx: nat, x: Transaction, slots: seq<Slot>, analyze: PostalAddress -> Analysis)
    ensures forall e :: e in EditsOfSlots(tx, x, slots, analyze) ==> e.tx == tx && AddressOf(x, e.slot) == Some(e.address)
  {
    if slots != [] {
      EditsOfSlotsTx(tx, x, slots[..|slots| - 1], analyze);
    }
  }

  /** Edits of one transaction patch that transaction alone. */
  lemma {:induction false} PatchOneTx(txs: seq<Transaction>, edits: seq<Edit>, i: nat)
    requires i < |txs| && forall e :: e in edits ==> e.tx == i
    ensures PatchTxs(txs, edits) == txs[i := PatchTx(txs[i], edits)]
  {
    if edits != [] {
      PatchOneTx(txs, edits[..|edits| - 1], i);
    }
  }

  lemma {:induction false} PatchTxsAppend(txs: seq<Transaction>, a: seq<Edit>, b: seq<Edit>)
    ensures PatchTxs(txs, a + b) == PatchTxs(PatchTxs(txs, a), b)
  {
    if b == [] {
      assert a + b == a;
    } else {
      assert (a + b)[..|a + b| - 1] == a + b[..|b| - 1];
      PatchTxsAppend(txs, a, b[..|b| - 1]);
    }
  }

  /** Edits of earlier transactions leave a later one alone. */
  lemma {:induction false} PatchEarlier(txs: seq<Transaction>, last: Transaction, edits: seq<Edit>)
    requires forall e :: e in edits ==> e.tx < |txs|
    ensures PatchTxs(txs + [last], edits) == PatchTxs(txs, edits) + [last]
  {
    if edits != [] {
      PatchEarlier(txs, last, edits[..|edits| - 1]);
    }
  }

  lemma {:induction false} EditsOfTxsInRange(txs: seq<Transaction>, slots: seq<Slot>, analyze: PostalAddress -> Analysis)
    ensures forall e :: e in EditsOfTxs(txs, slots, analyze) ==> e.tx < |txs| && AddressOf(txs[e.tx], e.slot) == Some(e.address)
  {
    if txs != [] {
      EditsOfTxsInRange(txs[..|txs| - 1], slots, analyze);
      EditsOfSlotsTx(|txs| - 1, txs[|txs| - 1], slots, analyze);
    }
  }

  lemma PatchNextTx(txs: seq<Transaction>, want: seq<Transaction>, last: Transaction, before: seq<Edit>, own: seq<Edit>)
    requires PatchTxs(txs, before) == want && |want| == |txs|
    requires forall e :: e in before ==> e.tx < |txs|
    requires forall e :: e in own ==> e.tx == |txs|
    ensures PatchTxs(txs + [last], before + own) == want + [PatchTx(last, own)]
  {
    PatchTxsAppend(txs + [last], before, own);
    PatchEarlier(txs, last, before);
    PatchOneTx(want + [last], own, |txs|);
    assert (want + [last])[|txs| := PatchTx(last, own)] == want + [PatchTx(last, own)];
  }

  /** The transactions, each patched by its own edits. */
  function PatchedEach(txs: seq<Transaction>, slots: seq<Slot>, analyze: PostalAddress -> Analysis): (r: seq<Transaction>)
    ensures |r| == |txs|
  {
    if txs == [] then []
    else
      var n := |txs| - 1;
      PatchedEach(txs[..n], slots, analyze) + [PatchTx(txs[n], EditsOfSlots(n, txs[n], slots, analyze))]
  }

  lemma {:induction false} PatchEachTx(txs: seq<Transaction>, slots: seq<Slot>, analyze: PostalAddress -> Analysis)
    ensures PatchTxs(txs, EditsOfTxs(txs, slots, analyze)) == PatchedEach(txs, slots, analyze)
  {
    if txs != [] {
      var n := |txs| - 1;
      PatchEachTx(txs[..n], slots, analyze);
      EditsOfTxsInRange(txs[..n], slots, analyze);
      EditsOfSlotsTx(n, txs[n], slots, analyze);
      PatchNextTx(txs[..n], PatchedEach(txs[..n], slots, analyze), txs[n],
                  EditsOfTxs(txs[..n], slots, analyze), EditsOfSlots(n, txs[n], slots, analyze));
      assert txs == txs[..n] + [txs[n]];
    }
  }

  lemma {:induction false} PatchedEachAt(txs: seq<Transaction>, slots: seq<Slot>, analyze: PostalAddress -> Analysis, i: nat)
    requires i < |txs|
    ensures PatchedEach(txs, slots, analyze)[i] == PatchTx(txs[i], EditsOfSlots(i, txs[i], slots, analyze))
  {
    if i < |txs| - 1 {
      PatchedEachAt(txs[..|txs| - 1], slots, analyze, i);
    }
  }

  /** Patching with every proposed edit gives the message with exactly those fields replaced. */
  lemma PatchIsRepair(msg: Message, analyze: PostalAddress -> Analysis)
    requires forall i :: 0 <= i < |msg.transactions| ==> PathsPrinted(msg.transactions[i])
    ensures Patch(msg, EditsOf(msg, analyze)) == RepairedMessage(msg, analyze)
  {
    var txs, want := msg.transactions, RepairedMessage(msg, analyze).transactions;
    var each := PatchedEach(txs, SLOTS, analyze);
    forall i: nat | i < |txs| ensures each[i] == want[i] {
      PatchedEachAt(txs, SLOTS, analyze, i);
      PatchTransaction(txs[i], i, analyze);
    }
    SameSeq(each, want);
    PatchEachTx(txs, SLOTS, analyze);
  }

  lemma MappedPathsPrinted(t: Tree, i: nat)
    requires i < |TxElements(t)|
    ensures PathsPrinted(MapMessage(t).transactions[i])
    ensures forall slot :: AddressOf(MapMessage(t).transactions[i], slot).Some? ==>
      && AddressNode(t, TxElements(t)[i], slot).Some?
      && AddressOf(MapMessage(t).transactions[i], slot).value.sourcePath == SlotPath(i, slot)
  {
    forall slot | AddressOf(MapMessage(t).transactions[i], slot).Some?
      ensures AddressNode(t, TxElements(t)[i], slot).Some?
      ensures AddressOf(MapMessage(t).transactions[i], slot).value.sourcePath == SlotPath(i, slot)
      ensures SlotPath(i, slot) != ""
    {
      SlotAddress(t, TxElements(t)[i], i, slot);
      assert |TxPath(i)| > 0;
    }
  }

  /** Every proposed edit addresses an element of the document it was proposed for. */
  lemma ProposedAddress(t: Tree, analyze: PostalAddress -> Analysis)
    ensures AllAddress(t, EditsOf(MapMessage(t), analyze))
  {
    var msg := MapMessage(t);
    var edits := EditsOf(msg, analyze);
    EditsOfTxsInRange(msg.transactions, SLOTS, analyze);
    forall i | 0 <= i < |edits| ensures Addresses(t, edits[i]) {
      var e := edits[i];
      assert e in edits;
      MappedPathsPrinted(t, e.tx);
    }
  }

  /** The lens law. For every pacs.008 document and every address provider, no proposed change is
      rejected and re-reading the repaired document gives the original message with exactly the
      proposed country and town fields replaced by their trimmed values. */
  lemma RepairIsLens(t: Tree, analyze: PostalAddress -> Analysis)
    requires Valid(t) && IsDocument(t)
    ensures WellFormedChanges(ChangesOf(EditsOf(MapMessage(t), analyze)))
    ensures var r := ApplyAll(t, ChangesOf(EditsOf(MapMessage(t), analyze)));
      && Valid(r.0) && IsDocument(r.0) && AllValidated(r.1)
      && MapMessage(r.0) == RepairedMessage(MapMessage(t), analyze)
  {
    var msg := MapMessage(t);
    var edits := EditsOf(msg, analyze);
    forall i | 0 <= i < |msg.transactions| ensures PathsPrinted(msg.transactions[i]) {
      MappedPathsPrinted(t, i);
    }
    PatchIsRepair(msg, analyze);
    ProposedAddress(t, analyze);
    ChangesWellFormed(t, edits);
    ApplyEditsPlaces(t, edits);
    ApplyEditsValidated(t, edits);
    ApplyEditsRead(t, edits);
  }
}
