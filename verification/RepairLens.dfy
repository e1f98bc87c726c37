// How one repaired leaf changes what the adapter reads: the addressed address field takes the new
// value and every other part of the canonical message stays as it was.
module RepairLens {
  import opened Strings
  import opened Sorting
  import opened XmlTree
  import opened Pacs008

  // ----- one edited leaf, seen from the document -----

  function AttrsOf(t: Tree, id: Id): map<string, string> { if id in t.attrs then t.attrs[id] else map[] }

  /** The `n` children of `p` are the same elements with the same texts. */
  ghost predicate SameBelow(t: Tree, t': Tree, p: Id, n: string) {
    && KidsNamed(t', p, n) == KidsNamed(t, p, n)
    && forall c :: c in KidsNamed(t, p, n) ==> c in t.tags && TextOf(t', c) == TextOf(t, c)
  }

  /** `t'` reads like `t`, but the first `leaf` child of `a` is there and holds `value`. */
  ghost predicate LeafEdit(t: Tree, t': Tree, a: Id, leaf: string, value: Option<string>) {
    && t'.root == t.root && NameOf(t', t.root) == NameOf(t, t.root) && a in t.tags && t.root in t.tags
    && (forall x :: x in t.tags ==> AttrsOf(t', x) == AttrsOf(t, x))
    && (forall p, n :: p in t.tags && !(p == a && n == leaf) ==> SameBelow(t, t', p, n))
    && KidsNamed(t', a, leaf) != []
    && TextOf(t', KidsNamed(t', a, leaf)[0]) == value
  }

  lemma SetTextKids(t: Tree, id: Id, value: Option<string>, p: Id, n: string)
    ensures KidsNamed(SetText(t, id, value), p, n) == KidsNamed(t, p, n)
  {
  }

  /** Overwriting a text keeps the document well formed. */
  lemma SetTextValid(t: Tree, id: Id, value: Option<string>)
    requires Valid(t) && id in t.tags
    ensures Valid(SetText(t, id, value))
  {
    var t' := SetText(t, id, value);
    forall x | x in t'.tags ensures Counted(t', x) {
      SetTextCounted(t, id, value, x);
    }
    assert ListsDistinct(t');
  }

  lemma SetTextCounted(t: Tree, id: Id, value: Option<string>, x: Id)
    requires Counted(t, x)
    ensures Counted(SetText(t, id, value), x)
  {
    if x.Created? {
      SetTextKids(t, id, value, x.parent, x.name);
    }
  }

  /** A child is named as asked, and has its parent. */
  lemma ChildOf(t: Tree, p: Id, n: string, c: Id)
    requires Valid(t) && c in KidsNamed(t, p, n)
    ensures p in t.kids && c in t.tags && c in t.parent && t.parent[c] == p && NameOf(t, c) == n
  {
    KidsNamedInside(t, p, n);
  }

  lemma OverwriteIsLeafEdit(t: Tree, a: Id, leaf: string, value: Option<string>)
    requires Valid(t) && a in t.tags && KidsNamed(t, a, leaf) != []
    ensures var t' := SetText(t, KidsNamed(t, a, leaf)[0], value); LeafEdit(t, t', a, leaf, value) && Valid(t')
  {
    var l := KidsNamed(t, a, leaf)[0];
    ChildOf(t, a, leaf, l);
    SetTextValid(t, l, value);
    SetTextKids(t, l, value, a, leaf);
    forall p, n | p in t.tags && !(p == a && n == leaf) ensures SameBelow(t, SetText(t, l, value), p, n) {
      SetTextKids(t, l, value, p, n);
      forall c | c in KidsNamed(t, p, n) ensures c in t.tags && c != l {
        ChildOf(t, p, n, c);
      }
    }
  }

  lemma InsertIsLeafEdit(t: Tree, a: Id, leaf: string, value: Option<string>)
    requires Valid(t) && a in t.tags && KidsNamed(t, a, leaf) == []
    ensures var t' := AddLeaf(t, a, leaf, value); LeafEdit(t, t', a, leaf, value) && Valid(t')
  {
    NewIdIsFresh(t, a, leaf);
    AddLeafValid(t, a, leaf, value);
    AddLeafKids(t, a, leaf, value, a, leaf);
    forall p, n | p in t.tags && !(p == a && n == leaf) ensures SameBelow(t, AddLeaf(t, a, leaf, value), p, n) {
      AddLeafKids(t, a, leaf, value, p, n);
      KidsNamedInside(t, p, n);
    }
  }

  /** Elements reached under any other parent and name keep their text. */
  lemma ReadsElsewhere(t: Tree, t': Tree, a: Id, leaf: string, value: Option<string>, p: Id, n: string)
    requires LeafEdit(t, t', a, leaf, value) && p in t.tags && !(p == a && n == leaf)
    ensures KidsNamed(t', p, n) == KidsNamed(t, p, n)
    ensures forall c :: c in KidsNamed(t, p, n) ==> c in t.tags && TextOf(t', c) == TextOf(t, c)
  {
    assert SameBelow(t, t', p, n);
  }

  // ----- the adapter's readings, one at a time -----

  ghost predicate In(t: Tree, el: Option<Id>) { el.Some? ==> el.value in t.tags }

  lemma ChildSame(t: Tree, t': Tree, a: Id, leaf: string, value: Option<string>, el: Option<Id>, n: string)
    requires LeafEdit(t, t', a, leaf, value) && In(t, el) && !(el == Some(a) && n == leaf)
    ensures Child(t', el, n) == Child(t, el, n) && In(t, Child(t, el, n))
    ensures Text(t', Child(t', el, n)) == Text(t, Child(t, el, n))
  {
    if el.Some? {
      ReadsElsewhere(t, t', a, leaf, value, el.value, n);
    }
  }

  lemma {:induction false} TextsSame(t: Tree, t': Tree, els: seq<Id>)
    requires forall c :: c in els ==> TextOf(t', c) == TextOf(t, c)
    ensures Texts(t', els) == Texts(t, els)
  {
    if els != [] {
      TextsSame(t, t', els[1..]);
    }
  }

  lemma ChildrenTextsSame(t: Tree, t': Tree, a: Id, leaf: string, value: Option<string>, el: Option<Id>, n: string)
    requires LeafEdit(t, t', a, leaf, value) && In(t, el) && !(el == Some(a) && n == leaf)
    ensures Texts(t', Children(t', el, n)) == Texts(t, Children(t, el, n))
  {
    if el.Some? {
      ReadsElsewhere(t, t', a, leaf, value, el.value, n);
      TextsSame(t, t', KidsNamed(t, el.value, n));
    }
  }

  // ----- addresses -----

  /** The two leaves a repair proposes. */
  datatype Leaf = Ctry | TwnNm

  function LeafName(leaf: Leaf): string { if leaf.Ctry? then "Ctry" else "TwnNm" }

  function WithField(fields: map<string, string>, name: string, value: Option<string>): map<string, string> {
    if value.Some? then fields[name := value.value] else fields - {name}
  }

  function WithLeaf(a: PostalAddress, leaf: Leaf, value: Option<string>): PostalAddress {
    var fields := WithField(a.originalFields, LeafName(leaf), value);
    match leaf
    case Ctry => a.(country := value, originalFields := fields)
    case TwnNm => a.(townName := value, originalFields := fields)
  }

  lemma SameGets(m: map<string, string>, m': map<string, string>)
    requires forall name :: Get(m, name) == Get(m', name)
    ensures m == m'
  {
    forall name ensures (name in m <==> name in m') && (name in m ==> m[name] == m'[name]) {
      assert Get(m, name) == Get(m', name);
    }
  }

  lemma FieldEdited(t: Tree, t': Tree, a: Id, leaf: string, value: Option<string>, names: seq<string>, name: string)
    requires LeafEdit(t, t', a, leaf, value) && leaf in names
    ensures Get(OriginalFields(t', a, names), name)
      == if name == leaf then TextValue(value) else Get(OriginalFields(t, a, names), name)
  {
    OriginalFieldsAt(t, a, names, name);
    OriginalFieldsAt(t', a, names, name);
    if name != leaf {
      ChildSame(t, t', a, leaf, value, Some(a), name);
    }
  }

  lemma GetWithField(m: map<string, string>, leaf: string, value: Option<string>, name: string)
    ensures Get(WithField(m, leaf, value), name) == if name == leaf then value else Get(m, name)
  {
  }

  lemma FieldsEdited(t: Tree, t': Tree, a: Id, leaf: string, value: Option<string>, names: seq<string>)
    requires LeafEdit(t, t', a, leaf, value) && leaf in names
    ensures OriginalFields(t', a, names) == WithField(OriginalFields(t, a, names), leaf, TextValue(value))
  {
    var m', w := OriginalFields(t', a, names), WithField(OriginalFields(t, a, names), leaf, TextValue(value));
    forall name ensures Get(m', name) == Get(w, name) {
      FieldEdited(t, t', a, leaf, value, names, name);
      GetWithField(OriginalFields(t, a, names), leaf, TextValue(value), name);
    }
    SameGets(m', w);
  }

  lemma AddressWithLeaf(fields: map<string, string>, lines: seq<string>, path: string, leaf: Leaf, value: Option<string>)
    ensures WithLeaf(AddressFrom(fields, lines, path), leaf, value)
      == AddressFrom(WithField(fields, LeafName(leaf), value), lines, path)
  {
  }

  lemma FieldsSame(t: Tree, t': Tree, a: Id, leaf: Leaf, value: Option<string>, b: Id, names: seq<string>)
    requires LeafEdit(t, t', a, LeafName(leaf), value) && b in t.tags && b != a
    ensures OriginalFields(t', b, names) == OriginalFields(t, b, names)
  {
    if names != [] {
      FieldsSame(t, t', a, leaf, value, b, names[..|names| - 1]);
      ChildSame(t, t', a, LeafName(leaf), value, Some(b), names[|names| - 1]);
    }
  }

  /** An address element before and after the edit. */
  lemma AddressAfter(t: Tree, t': Tree, a: Id, leaf: Leaf, value: Option<string>, b: Option<Id>, path: string)
    requires LeafEdit(t, t', a, LeafName(leaf), value) && In(t, b)
    ensures b != Some(a) ==> MapAddress(t', b, path) == MapAddress(t, b, path)
    ensures b == Some(a) ==>
      MapAddress(t', b, path) == Some(WithLeaf(MapAddress(t, b, path).value, leaf, TextValue(value)))
  {
    ChildrenTextsSame(t, t', a, LeafName(leaf), value, b, "AdrLine");
    if b == Some(a) {
      FieldsEdited(t, t', a, LeafName(leaf), value, ADDRESS_FIELDS);
      AddressWithLeaf(OriginalFields(t, a, ADDRESS_FIELDS), Texts(t, Children(t, b, "AdrLine")), path, leaf, TextValue(value));
    } else if b.Some? {
      FieldsSame(t, t', a, leaf, value, b.value, ADDRESS_FIELDS);
    }
  }

  // ----- parties, agents and the rest of a transaction -----

  function PatchParty(p: Option<Party>, hit: bool, leaf: Leaf, value: Option<string>): Option<Party> {
    if hit && PartyAddress(p).Some?
    then Some(p.value.(address := Some(WithLeaf(PartyAddress(p).value, leaf, value))))
    else p
  }

  function PatchAgent(p: Option<Agent>, hit: bool, leaf: Leaf, value: Option<string>): Option<Agent> {
    if hit && AgentAddress(p).Some?
    then Some(p.value.(address := Some(WithLeaf(AgentAddress(p).value, leaf, value))))
    else p
  }

  lemma PartyAfter(t: Tree, t': Tree, a: Id, leaf: Leaf, value: Option<string>, el: Option<Id>, path: string)
    requires LeafEdit(t, t', a, LeafName(leaf), value) && In(t, el)
    ensures MapParty(t', el, path)
      == PatchParty(MapParty(t, el, path), Child(t, el, "PstlAdr") == Some(a), leaf, TextValue(value))
  {
    ChildSame(t, t', a, LeafName(leaf), value, el, "Nm");
    ChildSame(t, t', a, LeafName(leaf), value, el, "PstlAdr");
    AddressAfter(t, t', a, leaf, value, Child(t, el, "PstlAdr"), path + "/PstlAdr");
  }

  lemma InstitutionAfter(t: Tree, t': Tree, a: Id, leaf: Leaf, value: Option<string>, fi: Option<Id>)
    requires LeafEdit(t, t', a, LeafName(leaf), value) && In(t, fi)
    ensures Text(t', Child(t', fi, "BICFI")) == Text(t, Child(t, fi, "BICFI"))
    ensures Text(t', Child(t', Child(t', fi, "ClrSysMmbId"), "MmbId")) == Text(t, Child(t, Child(t, fi, "ClrSysMmbId"), "MmbId"))
    ensures Text(t', Child(t', fi, "Nm")) == Text(t, Child(t, fi, "Nm"))
    ensures Child(t', fi, "PstlAdr") == Child(t, fi, "PstlAdr") && In(t, Child(t, fi, "PstlAdr"))
  {
    var name := LeafName(leaf);
    ChildSame(t, t', a, name, value, fi, "BICFI");
    ChildSame(t, t', a, name, value, fi, "ClrSysMmbId");
    ChildSame(t, t', a, name, value, Child(t, fi, "ClrSysMmbId"), "MmbId");
    ChildSame(t, t', a, name, value, fi, "Nm");
    ChildSame(t, t', a, name, value, fi, "PstlAdr");
  }

  lemma AgentFrom(t: Tree, t': Tree, el: Option<Id>, path: string, hit: bool, leaf: Leaf, value: Option<string>)
    requires el.Some?
    requires MapAgent(t', el, path).value.bic == MapAgent(t, el, path).value.bic
    requires MapAgent(t', el, path).value.clearingMember == MapAgent(t, el, path).value.clearingMember
    requires MapAgent(t', el, path).value.name == MapAgent(t, el, path).value.name
    requires MapAgent(t', el, path).value.address == var b := MapAgent(t, el, path).value.address;
      if hit && b.Some? then Some(WithLeaf(b.value, leaf, value)) else b
    ensures MapAgent(t', el, path) == PatchAgent(MapAgent(t, el, path), hit, leaf, value)
  {
  }

  lemma AgentAfter(t: Tree, t': Tree, a: Id, leaf: Leaf, value: Option<string>, el: Option<Id>, path: string)
    requires LeafEdit(t, t', a, LeafName(leaf), value) && In(t, el)
    ensures MapAgent(t', el, path) == PatchAgent(MapAgent(t, el, path),
      Child(t, Child(t, el, "FinInstnId"), "PstlAdr") == Some(a), leaf, TextValue(value))
  {
    ChildSame(t, t', a, LeafName(leaf), value, el, "FinInstnId");
    var fi := Child(t, el, "FinInstnId");
    InstitutionAfter(t, t', a, leaf, value, fi);
    AddressAfter(t, t', a, leaf, value, Child(t, fi, "PstlAdr"), path + "/FinInstnId/PstlAdr");
    if el.Some? {
      AgentFrom(t, t', el, path, Child(t, fi, "PstlAdr") == Some(a), leaf, TextValue(value));
    }
  }

  lemma AccountAfter(t: Tree, t': Tree, a: Id, leaf: Leaf, value: Option<string>, el: Option<Id>, path: string)
    requires LeafEdit(t, t', a, LeafName(leaf), value) && In(t, el)
    ensures MapAccount(t', el, path) == MapAccount(t, el, path)
  {
    var name := LeafName(leaf);
    ChildSame(t, t', a, name, value, el, "Id");
    var id := Child(t, el, "Id");
    ChildSame(t, t', a, name, value, id, "IBAN");
    ChildSame(t, t', a, name, value, id, "Othr");
    ChildSame(t, t', a, name, value, Child(t, id, "Othr"), "Id");
    ChildSame(t, t', a, name, value, el, "Nm");
  }

  lemma AmountElement(t: Tree, t': Tree, el: Id)
    requires AttrsOf(t', el) == AttrsOf(t, el) && TextOf(t', el) == TextOf(t, el)
    ensures MapAmount(t', Some(el)) == MapAmount(t, Some(el))
  {
  }

  lemma AmountAfter(t: Tree, t': Tree, a: Id, leaf: Leaf, value: Option<string>, el: Option<Id>)
    requires LeafEdit(t, t', a, LeafName(leaf), value) && In(t, el)
    ensures MapAmount(t', Child(t', el, "InstdAmt")) == MapAmount(t, Child(t, el, "InstdAmt"))
  {
    ChildSame(t, t', a, LeafName(leaf), value, el, "InstdAmt");
    if Child(t, el, "InstdAmt").Some? {
      ReadsElsewhere(t, t', a, LeafName(leaf), value, el.value, "InstdAmt");
      AmountElement(t, t', Child(t, el, "InstdAmt").value);
    }
  }

  lemma IdentifiersAfter(t: Tree, t': Tree, a: Id, leaf: Leaf, value: Option<string>, tx: Id, index: nat)
    requires LeafEdit(t, t', a, LeafName(leaf), value) && tx in t.tags
    ensures var x, x' := MapTransaction(t, tx, index), MapTransaction(t', tx, index);
      && x'.instructionId == x.instructionId && x'.endToEndId == x.endToEndId
      && x'.transactionId == x.transactionId && x'.remittance == x.remittance && x'.amount == x.amount
  {
    PaymentIdsAfter(t, t', a, leaf, value, tx, index);
    RemittanceAfter(t, t', a, leaf, value, tx, index);
    var name, el := LeafName(leaf), Some(tx);
    ChildSame(t, t', a, name, value, el, "Amt");
    AmountAfter(t, t', a, leaf, value, Child(t, el, "Amt"));
  }

  lemma RemittanceAfter(t: Tree, t': Tree, a: Id, leaf: Leaf, value: Option<string>, tx: Id, index: nat)
    requires LeafEdit(t, t', a, LeafName(leaf), value) && tx in t.tags
    ensures MapTransaction(t', tx, index).remittance == MapTransaction(t, tx, index).remittance
  {
    var name, el := LeafName(leaf), Some(tx);
    ChildSame(t, t', a, name, value, el, "RmtInf");
    ChildrenTextsSame(t, t', a, name, value, Child(t, el, "RmtInf"), "Ustrd");
  }

  lemma PaymentIdsAfter(t: Tree, t': Tree, a: Id, leaf: Leaf, value: Option<string>, tx: Id, index: nat)
    requires LeafEdit(t, t', a, LeafName(leaf), value) && tx in t.tags
    ensures var x, x' := MapTransaction(t, tx, index), MapTransaction(t', tx, index);
      x'.instructionId == x.instructionId && x'.endToEndId == x.endToEndId && x'.transactionId == x.transactionId
  {
    var name, el := LeafName(leaf), Some(tx);
    ChildSame(t, t', a, name, value, el, "PmtId");
    var pmt := Child(t, el, "PmtId");
    ChildSame(t, t', a, name, value, pmt, "InstrId");
    ChildSame(t, t', a, name, value, pmt, "EndToEndId");
    ChildSame(t, t', a, name, value, pmt, "TxId");
  }

  lemma AccountsAfter(t: Tree, t': Tree, a: Id, leaf: Leaf, value: Option<string>, tx: Id, index: nat)
    requires LeafEdit(t, t', a, LeafName(leaf), value) && tx in t.tags
    ensures var x, x' := MapTransaction(t, tx, index), MapTransaction(t', tx, index);
      && x'.debtorAccount == x.debtorAccount && x'.creditorAccount == x.creditorAccount && x'.sourcePath == x.sourcePath
  {
    ChildSame(t, t', a, LeafName(leaf), value, Some(tx), "DbtrAcct");
    ChildSame(t, t', a, LeafName(leaf), value, Some(tx), "CdtrAcct");
    AccountAfter(t, t', a, leaf, value, Child(t, Some(tx), "DbtrAcct"), TxPath(index) + "/DbtrAcct");
    AccountAfter(t, t', a, leaf, value, Child(t, Some(tx), "CdtrAcct"), TxPath(index) + "/CdtrAcct");
  }

  lemma PartySlotAfter(t: Tree, t': Tree, a: Id, leaf: Leaf, value: Option<string>, tx: Id, tag: string, path: string)
    requires LeafEdit(t, t', a, LeafName(leaf), value) && tx in t.tags && tag != LeafName(leaf)
    ensures MapParty(t', Child(t', Some(tx), tag), path) == PatchParty(MapParty(t, Child(t, Some(tx), tag), path),
      Child(t, Child(t, Some(tx), tag), "PstlAdr") == Some(a), leaf, TextValue(value))
  {
    ChildSame(t, t', a, LeafName(leaf), value, Some(tx), tag);
    PartyAfter(t, t', a, leaf, value, Child(t, Some(tx), tag), path);
  }

  lemma AgentSlotAfter(t: Tree, t': Tree, a: Id, leaf: Leaf, value: Option<string>, tx: Id, tag: string, path: string,
                       node: Option<Id>)
    requires LeafEdit(t, t', a, LeafName(leaf), value) && tx in t.tags && tag != LeafName(leaf)
    requires node == Child(t, Child(t, Child(t, Some(tx), tag), "FinInstnId"), "PstlAdr")
    ensures MapAgent(t', Child(t', Some(tx), tag), path)
      == PatchAgent(MapAgent(t, Child(t, Some(tx), tag), path), node == Some(a), leaf, TextValue(value))
  {
    ChildSame(t, t', a, LeafName(leaf), value, Some(tx), tag);
    AgentAfter(t, t', a, leaf, value, Child(t, Some(tx), tag), path);
  }

  lemma PartiesAfter(t: Tree, t': Tree, a: Id, leaf: Leaf, value: Option<string>, tx: Id, index: nat)
    requires LeafEdit(t, t', a, LeafName(leaf), value) && tx in t.tags
    ensures var x, x', v := MapTransaction(t, tx, index), MapTransaction(t', tx, index), TextValue(value);
      && x'.debtor == PatchParty(x.debtor, AddressNode(t, tx, Dbtr) == Some(a), leaf, v)
      && x'.creditor == PatchParty(x.creditor, AddressNode(t, tx, Cdtr) == Some(a), leaf, v)
  {
    PartySlotAfter(t, t', a, leaf, value, tx, "Dbtr", TxPath(index) + "/Dbtr");
    PartySlotAfter(t, t', a, leaf, value, tx, "Cdtr", TxPath(index) + "/Cdtr");
  }

  lemma DebtorAgentAfter(t: Tree, t': Tree, a: Id, leaf: Leaf, value: Option<string>, tx: Id, index: nat)
    requires LeafEdit(t, t', a, LeafName(leaf), value) && tx in t.tags
    ensures MapTransaction(t', tx, index).debtorAgent == PatchAgent(MapTransaction(t, tx, index).debtorAgent,
      AddressNode(t, tx, DbtrAgt) == Some(a), leaf, TextValue(value))
  {
    var path := TxPath(index) + "/DbtrAgt";
    AgentSlotAfter(t, t', a, leaf, value, tx, "DbtrAgt", path, AddressNode(t, tx, DbtrAgt));
  }

  lemma CreditorAgentAfter(t: Tree, t': Tree, a: Id, leaf: Leaf, value: Option<string>, tx: Id, index: nat)
    requires LeafEdit(t, t', a, LeafName(leaf), value) && tx in t.tags
    ensures MapTransaction(t', tx, index).creditorAgent == PatchAgent(MapTransaction(t, tx, index).creditorAgent,
      AddressNode(t, tx, CdtrAgt) == Some(a), leaf, TextValue(value))
  {
    var path := TxPath(index) + "/CdtrAgt";
    AgentSlotAfter(t, t', a, leaf, value, tx, "CdtrAgt", path, AddressNode(t, tx, CdtrAgt));
  }

  // ----- whose address an element is -----

  /** The party or agent element that an address element belongs to. */
  ghost function Holder(t: Tree, a: Id): Id
    requires a in t.parent
  {
    if NameOf(t, t.parent[a]) == "FinInstnId" && t.parent[a] in t.parent then t.parent[t.parent[a]] else t.parent[a]
  }

  function SlotTag(slot: Slot): string { SlotNames(slot)[0] }

  lemma AddressHolder(t: Tree, tx: Id, slot: Slot, a: Id)
    requires Valid(t) && AddressNode(t, tx, slot) == Some(a)
    ensures a in t.tags && a in t.parent
    ensures var h := Holder(t, a); h in t.parent && t.parent[h] == tx && NameOf(t, h) == SlotTag(slot)
    ensures Child(t, Some(tx), SlotTag(slot)).Some?
  {
    var el := Child(t, Some(tx), SlotTag(slot));
    if slot.Dbtr? || slot.Cdtr? {
      ChildOf(t, tx, SlotTag(slot), el.value);
      ChildOf(t, el.value, "PstlAdr", a);
    } else {
      var fi := Child(t, el, "FinInstnId");
      ChildOf(t, tx, SlotTag(slot), el.value);
      ChildOf(t, el.value, "FinInstnId", fi.value);
      ChildOf(t, fi.value, "PstlAdr", a);
    }
  }

  /** An address element belongs to one slot of one transaction. */
  lemma OneSlot(t: Tree, tx: Id, slot: Slot, tx': Id, slot': Slot, a: Id)
    requires Valid(t) && AddressNode(t, tx, slot) == Some(a) && AddressNode(t, tx', slot') == Some(a)
    ensures tx == tx' && slot == slot'
  {
    AddressHolder(t, tx, slot, a);
    AddressHolder(t, tx', slot', a);
  }

  // ----- the message after the edit -----

  /** `tx` with one address field of one slot replaced. */
  function WithSlotLeaf(tx: Transaction, slot: Slot, leaf: Leaf, value: Option<string>): Transaction {
    match slot
    case Dbtr => tx.(debtor := PatchParty(tx.debtor, true, leaf, value))
    case Cdtr => tx.(creditor := PatchParty(tx.creditor, true, leaf, value))
    case DbtrAgt => tx.(debtorAgent := PatchAgent(tx.debtorAgent, true, leaf, value))
    case CdtrAgt => tx.(creditorAgent := PatchAgent(tx.creditorAgent, true, leaf, value))
  }

  /** `txs` with one address field of transaction `index` replaced. */
  function WithTxLeaf(txs: seq<Transaction>, index: nat, slot: Slot, leaf: Leaf, value: Option<string>): seq<Transaction> {
    if index < |txs| then txs[index := WithSlotLeaf(txs[index], slot, leaf, value)] else txs
  }

  /** `tx` after the edit, slot by slot. */
  function Patched(tx: Transaction, hit: Slot -> bool, leaf: Leaf, value: Option<string>): Transaction {
    tx.(debtor := PatchParty(tx.debtor, hit(Dbtr), leaf, value),
        creditor := PatchParty(tx.creditor, hit(Cdtr), leaf, value),
        debtorAgent := PatchAgent(tx.debtorAgent, hit(DbtrAgt), leaf, value),
        creditorAgent := PatchAgent(tx.creditorAgent, hit(CdtrAgt), leaf, value))
  }

  function Hits(t: Tree, tx: Id, a: Id): Slot -> bool { s => AddressNode(t, tx, s) == Some(a) }

  lemma PatchedAfter(t: Tree, t': Tree, a: Id, leaf: Leaf, value: Option<string>, tx: Id, index: nat)
    requires LeafEdit(t, t', a, LeafName(leaf), value) && tx in t.tags
    ensures MapTransaction(t', tx, index) == Patched(MapTransaction(t, tx, index), Hits(t, tx, a), leaf, TextValue(value))
  {
    IdentifiersAfter(t, t', a, leaf, value, tx, index);
    AccountsAfter(t, t', a, leaf, value, tx, index);
    PartiesAfter(t, t', a, leaf, value, tx, index);
    DebtorAgentAfter(t, t', a, leaf, value, tx, index);
    CreditorAgentAfter(t, t', a, leaf, value, tx, index);
  }

  lemma PatchedOnce(tx: Transaction, hit: Slot -> bool, leaf: Leaf, value: Option<string>, slot: Slot)
    requires hit(slot) && forall s :: s != slot ==> !hit(s)
    ensures Patched(tx, hit, leaf, value) == WithSlotLeaf(tx, slot, leaf, value)
  {
  }

  lemma OnlySlot(t: Tree, tx: Id, slot: Slot, a: Id)
    requires Valid(t) && tx in t.tags && a in t.tags && AddressNode(t, tx, slot) == Some(a)
    ensures forall s :: Hits(t, tx, a)(s) <==> s == slot
  {
    forall s | s != slot ensures !Hits(t, tx, a)(s) {
      if AddressNode(t, tx, s) == Some(a) {
        OneSlot(t, tx, slot, tx, s, a);
      }
    }
  }

  /** A transaction whose address was edited takes the value in that slot. */
  lemma TransactionHit(t: Tree, t': Tree, a: Id, leaf: Leaf, value: Option<string>, tx: Id, index: nat, slot: Slot)
    requires Valid(t) && LeafEdit(t, t', a, LeafName(leaf), value) && tx in t.tags && AddressNode(t, tx, slot) == Some(a)
    ensures MapTransaction(t', tx, index) == WithSlotLeaf(MapTransaction(t, tx, index), slot, leaf, TextValue(value))
  {
    PatchedAfter(t, t', a, leaf, value, tx, index);
    OnlySlot(t, tx, slot, a);
    PatchedOnce(MapTransaction(t, tx, index), Hits(t, tx, a), leaf, TextValue(value), slot);
  }

  /** Any other transaction reads as before. */
  lemma TransactionMissed(t: Tree, t': Tree, a: Id, leaf: Leaf, value: Option<string>, tx: Id, index: nat)
    requires LeafEdit(t, t', a, LeafName(leaf), value) && tx in t.tags && forall s :: !Hits(t, tx, a)(s)
    ensures MapTransaction(t', tx, index) == MapTransaction(t, tx, index)
  {
    PatchedAfter(t, t', a, leaf, value, tx, index);
  }

  lemma TxElementsAfter(t: Tree, t': Tree, a: Id, leaf: Leaf, value: Option<string>)
    requires LeafEdit(t, t', a, LeafName(leaf), value)
    ensures MessageRoot(t') == MessageRoot(t) && TxElements(t') == TxElements(t)
    ensures forall tx :: tx in TxElements(t) ==> tx in t.tags
  {
    ChildSame(t, t', a, LeafName(leaf), value, Some(t.root), "FIToFICstmrCdtTrf");
    if MessageRoot(t).Some? {
      ReadsElsewhere(t, t', a, LeafName(leaf), value, MessageRoot(t).value, "CdtTrfTxInf");
    }
  }

  lemma HeaderAfter(t: Tree, t': Tree, a: Id, leaf: Leaf, value: Option<string>)
    requires LeafEdit(t, t', a, LeafName(leaf), value)
    ensures MapMessage(t').messageId == MapMessage(t).messageId && MapMessage(t').created == MapMessage(t).created
  {
    ChildSame(t, t', a, LeafName(leaf), value, Some(t.root), "FIToFICstmrCdtTrf");
    ChildSame(t, t', a, LeafName(leaf), value, MessageRoot(t), "GrpHdr");
    var grp := Child(t, MessageRoot(t), "GrpHdr");
    ChildSame(t, t', a, LeafName(leaf), value, grp, "MsgId");
    ChildSame(t, t', a, LeafName(leaf), value, grp, "CreDtTm");
  }

  lemma OtherTransaction(t: Tree, t': Tree, a: Id, leaf: Leaf, value: Option<string>, index: nat, slot: Slot, j: nat)
    requires Valid(t) && LeafEdit(t, t', a, LeafName(leaf), value)
    requires index < |TxElements(t)| && AddressNode(t, TxElements(t)[index], slot) == Some(a)
    requires j < |TxElements(t)| && j != index
    ensures MapTransaction(t', TxElements(t)[j], j) == MapTransaction(t, TxElements(t)[j], j)
  {
    TxElementsAfter(t, t', a, leaf, value);
    forall s ensures !Hits(t, TxElements(t)[j], a)(s) {
      AddressElsewhere(t, index, slot, j, s, a);
    }
    TransactionMissed(t, t', a, leaf, value, TxElements(t)[j], j);
  }

  /** No other transaction has the same element as an address. */
  lemma AddressElsewhere(t: Tree, index: nat, slot: Slot, j: nat, s: Slot, a: Id)
    requires Valid(t) && index < |TxElements(t)| && AddressNode(t, TxElements(t)[index], slot) == Some(a)
    requires j < |TxElements(t)| && j != index && a in t.tags && TxElements(t)[j] in t.tags && TxElements(t)[index] in t.tags
    ensures AddressNode(t, TxElements(t)[j], s) != Some(a)
  {
    var tx, tx' := TxElements(t)[index], TxElements(t)[j];
    KidsNamedDistinct(t, MessageRoot(t).value, "CdtTrfTxInf", if j < index then j else index, if j < index then index else j);
    if AddressNode(t, tx', s) == Some(a) {
      OneSlot(t, tx, slot, tx', s, a);
    }
  }

  lemma EachTransaction(t: Tree, t': Tree, a: Id, leaf: Leaf, value: Option<string>, index: nat, slot: Slot, j: nat)
    requires Valid(t) && LeafEdit(t, t', a, LeafName(leaf), value)
    requires index < |TxElements(t)| && AddressNode(t, TxElements(t)[index], slot) == Some(a)
    requires j < |TxElements(t)| && TxElements(t') == TxElements(t)
    ensures MapTransaction(t', TxElements(t)[j], j)
      == if j == index then WithSlotLeaf(MapTransaction(t, TxElements(t)[j], j), slot, leaf, TextValue(value))
         else MapTransaction(t, TxElements(t)[j], j)
  {
    TxElementsAfter(t, t', a, leaf, value);
    if j == index {
      TransactionHit(t, t', a, leaf, value, TxElements(t)[index], index, slot);
    } else {
      OtherTransaction(t, t', a, leaf, value, index, slot, j);
    }
  }

  lemma SameSeq<T>(a: seq<T>, b: seq<T>)
    requires |a| == |b| && forall j :: 0 <= j < |a| ==> a[j] == b[j]
    ensures a == b
  {
  }

  lemma MappedAt(t: Tree, j: nat)
    requires j < |TxElements(t)|
    ensures |MapMessage(t).transactions| == |TxElements(t)|
    ensures MapMessage(t).transactions[j] == MapTransaction(t, TxElements(t)[j], j)
  {
  }

  lemma TransactionAt(t: Tree, t': Tree, a: Id, leaf: Leaf, value: Option<string>, index: nat, slot: Slot, j: nat, v: Transaction)
    requires Valid(t) && LeafEdit(t, t', a, LeafName(leaf), value) && TxElements(t') == TxElements(t)
    requires index < |TxElements(t)| && AddressNode(t, TxElements(t)[index], slot) == Some(a)
    requires v == WithSlotLeaf(MapMessage(t).transactions[index], slot, leaf, TextValue(value))
    requires j < |TxElements(t)|
    ensures MapMessage(t').transactions[j] == if j == index then v else MapMessage(t).transactions[j]
  {
    MappedAt(t, j);
    MappedAt(t', j);
    EachTransaction(t, t', a, leaf, value, index, slot, j);
  }

  lemma IsUpdate<T>(a: seq<T>, b: seq<T>, i: nat, v: T)
    requires |a| == |b| && i < |a| && forall j: nat :: j < |a| ==> b[j] == if j == i then v else a[j]
    ensures b == a[i := v]
  {
  }

  lemma TransactionsAfter(t: Tree, t': Tree, a: Id, leaf: Leaf, value: Option<string>, index: nat, slot: Slot)
    requires Valid(t) && LeafEdit(t, t', a, LeafName(leaf), value) && TxElements(t') == TxElements(t)
    requires index < |TxElements(t)| && AddressNode(t, TxElements(t)[index], slot) == Some(a)
    ensures MapMessage(t').transactions == WithTxLeaf(MapMessage(t).transactions, index, slot, leaf, TextValue(value))
  {
    var txs, txs' := MapMessage(t).transactions, MapMessage(t').transactions;
    var v := WithSlotLeaf(txs[index], slot, leaf, TextValue(value));
    forall j: nat | j < |txs| ensures txs'[j] == if j == index then v else txs[j] {
      TransactionAt(t, t', a, leaf, value, index, slot, j, v);
    }
    IsUpdate(txs, txs', index, v);
  }

  /** One edited leaf is one replaced field of the message: the adapter sees nothing else. */
  lemma MessageAfter(t: Tree, t': Tree, a: Id, leaf: Leaf, value: Option<string>, index: nat, slot: Slot)
    requires Valid(t) && LeafEdit(t, t', a, LeafName(leaf), value)
    requires index < |TxElements(t)| && AddressNode(t, TxElements(t)[index], slot) == Some(a)
    ensures MapMessage(t') == MapMessage(t).(
      transactions := WithTxLeaf(MapMessage(t).transactions, index, slot, leaf, TextValue(value)))
  {
    TxElementsAfter(t, t', a, leaf, value);
    HeaderAfter(t, t', a, leaf, value);
    TransactionsAfter(t, t', a, leaf, value, index, slot);
  }

  /** The edit moves no address element. */
  lemma NodesAfter(t: Tree, t': Tree, a: Id, leaf: Leaf, value: Option<string>, tx: Id, slot: Slot)
    requires LeafEdit(t, t', a, LeafName(leaf), value) && tx in t.tags
    ensures AddressNode(t', tx, slot) == AddressNode(t, tx, slot)
  {
    var name, tag := LeafName(leaf), SlotTag(slot);
    ChildSame(t, t', a, name, value, Some(tx), tag);
    if slot.Dbtr? || slot.Cdtr? {
      ChildSame(t, t', a, name, value, Child(t, Some(tx), tag), "PstlAdr");
    } else {
      ChildSame(t, t', a, name, value, Child(t, Some(tx), tag), "FinInstnId");
      ChildSame(t, t', a, name, value, Child(t, Child(t, Some(tx), tag), "FinInstnId"), "PstlAdr");
    }
  }

  // ----- the change at a printed address path -----

  function LeafPath(base: string, leaf: Leaf): string { base + ("/" + LeafName(leaf)) }

  lemma LeafPathSteps(index: nat, slot: Slot, leaf: Leaf)
    ensures LeafPath(SlotPath(index, slot), leaf) == TxPath(index) + PathOf(SlotNames(slot) + [LeafName(leaf)])
    ensures AllPlain(SlotNames(slot) + [LeafName(leaf)])
  {
    var names, name := SlotNames(slot), LeafName(leaf);
    AddressNamesPlain();
    SlotPlain(slot);
    OnePlain(name);
    PlainAppend(names, [name]);
    PathOfAppend(names, [name]);
    PathOfOne(name);
    Assoc(TxPath(index), PathOf(names), "/" + name);
  }

  lemma LeafChain(t: Tree, tx: Id, slot: Slot, name: string)
    ensures Chain(t, Some(tx), SlotNames(slot) + [name]) == Child(t, AddressNode(t, tx, slot), name)
  {
    ChainAppend(t, Some(tx), SlotNames(slot), [name]);
    SlotChain(t, tx, slot);
    ChainOne(t, AddressNode(t, tx, slot), name);
  }

  /** Navigating an address field's printed path finds that address's leaf, if it has one. */
  lemma NavigateLeaf(t: Tree, index: nat, slot: Slot, leaf: Leaf)
    requires IsDocument(t) && index < |TxElements(t)|
    ensures var path := LeafPath(SlotPath(index, slot), leaf);
      && WellFormedPath(path)
      && Segments(path) == TxSteps(index) + (SlotNames(slot) + [LeafName(leaf)])
      && Navigate(t, path) == Child(t, AddressNode(t, TxElements(t)[index], slot), LeafName(leaf))
  {
    LeafPathSteps(index, slot, leaf);
    NavigateTx(t, index, SlotNames(slot) + [LeafName(leaf)]);
    LeafChain(t, TxElements(t)[index], slot, LeafName(leaf));
  }

  lemma LeafInOrder(leaf: Leaf)
    ensures LeafName(leaf) in POSTAL_ADDRESS_ORDER && StepName(LeafName(leaf)) == LeafName(leaf)
  {
    assert POSTAL_ADDRESS_ORDER[6] == "TwnNm" && POSTAL_ADDRESS_ORDER[7] == "Ctry";
    AddressNamesPlain();
    PlainStepParses(LeafName(leaf));
  }

  /** When the leaf is missing, its address is where it would be created. */
  lemma MissingLeafParent(t: Tree, index: nat, slot: Slot, leaf: Leaf)
    requires IsDocument(t) && index < |TxElements(t)| && AddressNode(t, TxElements(t)[index], slot).Some?
    requires WellFormedSteps(TxSteps(index) + (SlotNames(slot) + [LeafName(leaf)]))
    ensures MissingParent(t, TxSteps(index) + (SlotNames(slot) + [LeafName(leaf)]))
      == AddressNode(t, TxElements(t)[index], slot)
  {
    var segs := TxSteps(index) + (SlotNames(slot) + [LeafName(leaf)]);
    assert segs[..|segs| - 1] == TxSteps(index) + SlotNames(slot);
    SlotPlain(slot);
    TxStepsWellFormed(index, SlotNames(slot));
    ResolveTx(t, index, SlotNames(slot));
    SlotChain(t, TxElements(t)[index], slot);
    LeafInOrder(leaf);
  }

  /** The tree after an edit of the leaf `name` of address `a`. */
  function EditTree(t: Tree, a: Id, name: string, value: Option<string>): Tree {
    if KidsNamed(t, a, name) != [] then SetText(t, KidsNamed(t, a, name)[0], value) else AddLeaf(t, a, name, value)
  }

  lemma EditAt(t: Tree, path: string, segs: seq<string>, value: Option<string>, a: Id, name: string)
    requires WellFormedPath(path) && segs == Segments(path) && segs != [] && StepName(segs[|segs| - 1]) == name
    requires Navigate(t, path) == Child(t, Some(a), name) && MissingParent(t, segs) == Some(a)
    ensures Apply(t, path, value) == (EditTree(t, a, name, value), true)
  {
  }

  lemma LastStep(a: seq<string>, b: seq<string>, x: string)
    ensures var segs := a + (b + [x]); segs != [] && segs[|segs| - 1] == x
  {
  }

  /** A change at a printed address path is never rejected and edits exactly that leaf. */
  lemma ApplyIsEdit(t: Tree, index: nat, slot: Slot, leaf: Leaf, value: Option<string>)
    requires IsDocument(t) && index < |TxElements(t)|
    requires AddressNode(t, TxElements(t)[index], slot).Some?
    ensures WellFormedPath(LeafPath(SlotPath(index, slot), leaf))
    ensures Apply(t, LeafPath(SlotPath(index, slot), leaf), value)
      == (EditTree(t, AddressNode(t, TxElements(t)[index], slot).value, LeafName(leaf), value), true)
  {
    NavigateLeaf(t, index, slot, leaf);
    MissingLeafParent(t, index, slot, leaf);
    LeafInOrder(leaf);
    LastStep(TxSteps(index), SlotNames(slot), LeafName(leaf));
    EditAt(t, LeafPath(SlotPath(index, slot), leaf), TxSteps(index) + (SlotNames(slot) + [LeafName(leaf)]), value,
           AddressNode(t, TxElements(t)[index], slot).value, LeafName(leaf));
  }

  lemma EditIsLeafEdit(t: Tree, a: Id, leaf: string, value: Option<string>)
    requires Valid(t) && a in t.tags
    ensures LeafEdit(t, EditTree(t, a, leaf, value), a, leaf, value) && Valid(EditTree(t, a, leaf, value))
  {
    if KidsNamed(t, a, leaf) != [] {
      OverwriteIsLeafEdit(t, a, leaf, value);
    } else {
      InsertIsLeafEdit(t, a, leaf, value);
    }
  }
}
