// What a whole repair proposes and leaves, field by field, in terms of what the provider resolves and what
// the document says.
module RepairMeaning {
  import opened Strings
  import opened XmlTree
  import opened Pacs008
  import opened RepairLens
  import opened RepairEngine

  /** The address's own value of a leaf. */
  function Own(a: PostalAddress, leaf: Leaf): Option<string> { if leaf.Ctry? then a.country else a.townName }

  /** A value was resolved, and it is not the one the address has. */
  predicate Calls(a: PostalAddress, r: Analysis, leaf: Leaf) {
    var value := if leaf.Ctry? then r.countryCode else r.townName;
    value.Some? && value.value != "" && Own(a, leaf) != value
  }

  // ----- addresses as the adapter reads them -----

  /** Country and town are trimmed text, and are what the original fields hold. */
  predicate Read(a: PostalAddress) {
    && a.country == Get(a.originalFields, "Ctry") && a.townName == Get(a.originalFields, "TwnNm")
    && (a.country.Some? ==> a.country.value != "" && Trimmed(a.country.value))
    && (a.townName.Some? ==> a.townName.value != "" && Trimmed(a.townName.value))
  }

  lemma AddressIsRead(t: Tree, el: Id, path: string)
    ensures Read(MapAddress(t, Some(el), path).value) && MapAddress(t, Some(el), path).value.sourcePath == path
  {
    AddressFieldsInOrder(t, el, path);
    TextIsTrimmed(t, Child(t, Some(el), "Ctry"));
    TextIsTrimmed(t, Child(t, Some(el), "TwnNm"));
  }

  lemma TextIsTrimmed(t: Tree, el: Option<Id>)
    ensures Text(t, el).Some? ==> Text(t, el).value != "" && Trimmed(Text(t, el).value)
  {
  }

  lemma PathNotEmpty(i: nat, slot: Slot)
    ensures SlotPath(i, slot) != ""
  {
    assert |TxPath(i)| > 0;
  }

  lemma MappedIsRead(t: Tree, i: nat, slot: Slot)
    requires i < |TxElements(t)|
    ensures var a := AddressOf(MapMessage(t).transactions[i], slot);
      a.Some? ==> Read(a.value) && a.value.sourcePath == SlotPath(i, slot) && SlotPath(i, slot) != ""
  {
    var tx := TxElements(t)[i];
    MappedAt(t, i);
    SlotAddress(t, tx, i, slot);
    PathNotEmpty(i, slot);
    if AddressNode(t, tx, slot).Some? {
      AddressIsRead(t, AddressNode(t, tx, slot).value, SlotPath(i, slot));
    }
  }

  lemma ProposesIs(a: PostalAddress, r: Analysis, leaf: Leaf)
    requires Read(a)
    ensures Proposes(a, r, leaf) <==> Calls(a, r, leaf)
    ensures RawField(a, leaf) == Own(a, leaf)
  {
  }

  // ----- what is proposed -----

  lemma InAddressEdits(tx: nat, slot: Slot, a: Option<PostalAddress>, analyze: PostalAddress -> Analysis, e: Edit)
    ensures e in EditsOfAddress(tx, slot, a, analyze) <==>
      && a.Some? && a.value.sourcePath != "" && e.tx == tx && e.slot == slot && e.address == a.value
      && Proposes(a.value, analyze(a.value), e.leaf) && Some(e.value) == Resolved(analyze(a.value), e.leaf)
  {
  }

  lemma {:induction false} InSlotEdits(tx: nat, x: Transaction, slots: seq<Slot>, analyze: PostalAddress -> Analysis, e: Edit)
    ensures e in EditsOfSlots(tx, x, slots, analyze) <==>
      e.slot in slots && e in EditsOfAddress(tx, e.slot, AddressOf(x, e.slot), analyze)
  {
    if slots != [] {
      var front, last := slots[..|slots| - 1], slots[|slots| - 1];
      InSlotEdits(tx, x, front, analyze, e);
      InAddressEdits(tx, last, AddressOf(x, last), analyze, e);
      InAddressEdits(tx, e.slot, AddressOf(x, e.slot), analyze, e);
      assert slots == front + [last];
    }
  }

  lemma {:induction false} InTxEdits(txs: seq<Transaction>, analyze: PostalAddress -> Analysis, e: Edit)
    ensures e in EditsOfTxs(txs, SLOTS, analyze) <==>
      e.tx < |txs| && e in EditsOfSlots(e.tx, txs[e.tx], SLOTS, analyze)
  {
    if txs != [] {
      var n := |txs| - 1;
      InTxEdits(txs[..n], analyze, e);
      InSlotEdits(n, txs[n], SLOTS, analyze, e);
      InAddressEdits(n, e.slot, AddressOf(txs[n], e.slot), analyze, e);
      if e.tx < n {
        assert txs[..n][e.tx] == txs[e.tx];
      }
    }
  }

  lemma EverySlot(slot: Slot)
    ensures slot in SLOTS
  {
    assert SLOTS[0] == Dbtr && SLOTS[1] == Cdtr && SLOTS[2] == DbtrAgt && SLOTS[3] == CdtrAgt;
  }

  /** For every document and provider: a change is proposed exactly for the country and town fields of an
      address for which a value was resolved that the address does not have; it carries that value, the
      address's own one, and the literal path of the field. */
  lemma ProposedMeans(t: Tree, analyze: PostalAddress -> Analysis, i: nat, slot: Slot, leaf: Leaf, value: string)
    requires i < |TxElements(t)|
    ensures var a := AddressOf(MapMessage(t).transactions[i], slot);
      (exists e :: e in EditsOf(MapMessage(t), analyze) && IsProposal(e, i, slot, leaf, value, a)) <==>
        && a.Some? && Calls(a.value, analyze(a.value), leaf)
        && Some(value) == if leaf.Ctry? then analyze(a.value).countryCode else analyze(a.value).townName
  {
    var msg := MapMessage(t);
    var a := AddressOf(msg.transactions[i], slot);
    MappedIsRead(t, i, slot);
    if a.Some? {
      var e := Edit(i, slot, leaf, a.value, value);
      ProposesIs(a.value, analyze(a.value), leaf);
      EverySlot(slot);
      Proposal(msg, analyze, e, i, slot, a);
      ProposalIs(e, a.value);
    }
    forall e | e in EditsOf(msg, analyze) && IsProposal(e, i, slot, leaf, value, a)
      ensures a.Some? && Proposes(a.value, analyze(a.value), leaf) && Some(value) == Resolved(analyze(a.value), leaf)
    {
      Proposal(msg, analyze, e, i, slot, a);
    }
  }

  lemma Proposal(msg: Message, analyze: PostalAddress -> Analysis, e: Edit, i: nat, slot: Slot, a: Option<PostalAddress>)
    requires i < |msg.transactions| && a == AddressOf(msg.transactions[i], slot) && e.tx == i && e.slot == slot
    ensures e in EditsOf(msg, analyze) <==>
      && a.Some? && a.value.sourcePath != "" && e.address == a.value
      && Proposes(a.value, analyze(a.value), e.leaf) && Some(e.value) == Resolved(analyze(a.value), e.leaf)
  {
    InTxEdits(msg.transactions, analyze, e);
    InSlotEdits(i, msg.transactions[i], SLOTS, analyze, e);
    InAddressEdits(i, slot, a, analyze, e);
    EverySlot(slot);
  }

  /** The place of a field in the change list: by transaction, then debtor, creditor, debtor agent, creditor
      agent, then country and town. */
  function PlaceIn(e: Edit): nat {
    8 * e.tx
    + (match e.slot case Dbtr => 0 case Cdtr => 2 case DbtrAgt => 4 case CdtrAgt => 6)
    + if e.leaf.Ctry? then 0 else 1
  }

  /** The edits rise by place, from `low` on and below `high`. */
  predicate Rises(edits: seq<Edit>, low: nat, high: nat) {
    && (forall i :: 0 <= i < |edits| ==> low <= PlaceIn(edits[i]) < high)
    && (forall i, j :: 0 <= i < j < |edits| ==> PlaceIn(edits[i]) < PlaceIn(edits[j]))
  }

  lemma RiseJoined(a: seq<Edit>, b: seq<Edit>, low: nat, mid: nat, high: nat)
    requires Rises(a, low, mid) && Rises(b, mid, high) && low <= mid <= high
    ensures Rises(a + b, low, high)
  {
    var all := a + b;
    forall i | 0 <= i < |all| ensures low <= PlaceIn(all[i]) < high {
      assert all[i] == if i < |a| then a[i] else b[i - |a|];
    }
    forall i, j | 0 <= i < j < |all| ensures PlaceIn(all[i]) < PlaceIn(all[j]) {
      assert all[i] == if i < |a| then a[i] else b[i - |a|];
      assert all[j] == if j < |a| then a[j] else b[j - |a|];
    }
  }

  lemma LeafRises(tx: nat, slot: Slot, a: PostalAddress, r: Analysis, leaf: Leaf, place: nat)
    requires PlaceIn(Edit(tx, slot, leaf, a, "")) == place
    ensures Rises(EditsOfLeaf(tx, slot, a, r, leaf), place, place + 1)
  {
  }

  lemma AddressRises(tx: nat, slot: Slot, a: Option<PostalAddress>, analyze: PostalAddress -> Analysis, place: nat)
    requires place == 8 * tx + match slot case Dbtr => 0 case Cdtr => 2 case DbtrAgt => 4 case CdtrAgt => 6
    ensures Rises(EditsOfAddress(tx, slot, a, analyze), place, place + 2)
  {
    if a.Some? && a.value.sourcePath != "" {
      var r := analyze(a.value);
      LeafRises(tx, slot, a.value, r, Ctry, place);
      LeafRises(tx, slot, a.value, r, TwnNm, place + 1);
      RiseJoined(EditsOfLeaf(tx, slot, a.value, r, Ctry), EditsOfLeaf(tx, slot, a.value, r, TwnNm), place, place + 1, place + 2);
    }
  }

  lemma {:induction false} SlotsRise(tx: nat, x: Transaction, k: nat, analyze: PostalAddress -> Analysis)
    requires k <= 4
    ensures Rises(EditsOfSlots(tx, x, SLOTS[..k], analyze), 8 * tx, 8 * tx + 2 * k)
  {
    if k > 0 {
      SlotsRise(tx, x, k - 1, analyze);
      var slot := SLOTS[k - 1];
      AddressRises(tx, slot, AddressOf(x, slot), analyze, 8 * tx + 2 * (k - 1));
      assert SLOTS[..k][..k - 1] == SLOTS[..k - 1] && SLOTS[..k][k - 1] == slot;
      RiseJoined(EditsOfSlots(tx, x, SLOTS[..k - 1], analyze), EditsOfAddress(tx, slot, AddressOf(x, slot), analyze),
                 8 * tx, 8 * tx + 2 * (k - 1), 8 * tx + 2 * k);
    }
  }

  /** The change list goes through the transactions in order, in each through the addresses in order, and in
      each first to the country and then to the town; no field is changed twice. */
  lemma {:induction false} ProposedInOrder(txs: seq<Transaction>, analyze: PostalAddress -> Analysis)
    ensures Rises(EditsOfTxs(txs, SLOTS, analyze), 0, 8 * |txs|)
  {
    if txs != [] {
      var n := |txs| - 1;
      ProposedInOrder(txs[..n], analyze);
      SlotsRise(n, txs[n], 4, analyze);
      assert SLOTS[..4] == SLOTS;
      RiseJoined(EditsOfTxs(txs[..n], SLOTS, analyze), EditsOfSlots(n, txs[n], SLOTS, analyze), 0, 8 * n, 8 * n + 8);
    }
  }

  /** The edit of field (i, slot, leaf), and the change it stands for. */
  predicate IsProposal(e: Edit, i: nat, slot: Slot, leaf: Leaf, value: string, a: Option<PostalAddress>) {
    && e.tx == i && e.slot == slot && e.leaf == leaf && e.value == value
    && a.Some?
    && ChangeOf(e) == Change(SlotPath(i, slot) + ("/" + LeafName(leaf)), Own(a.value, leaf), Some(value))
  }

  lemma ProposalIs(e: Edit, a: PostalAddress)
    requires e.address == a && Read(a) && a.sourcePath == SlotPath(e.tx, e.slot)
    ensures IsProposal(e, e.tx, e.slot, e.leaf, e.value, Some(a))
  {
    ProposesIs(a, Analysis(None, None), e.leaf);
  }

  // ----- what the repair leaves -----

  /** The field after the repair: the resolved value, trimmed, or what it was. */
  function Left(value: Option<string>, own: Option<string>): Option<string> {
    if value.Some? && value.value != "" then TextValue(value) else own
  }

  /** Country and town are as resolved, and everything else is as it was. */
  predicate LeftAddress(a: PostalAddress, b: PostalAddress, r: Analysis) {
    && b.country == Left(r.countryCode, a.country) && b.townName == Left(r.townName, a.townName)
    && b.streetName == a.streetName && b.buildingNumber == a.buildingNumber && b.postcode == a.postcode
    && b.addressLines == a.addressLines && b.sourcePath == a.sourcePath
  }

  lemma RepairedIsLeft(a: PostalAddress, r: Analysis)
    requires Read(a)
    ensures LeftAddress(a, RepairedAddress(a, r), r)
  {
    ProposesIs(a, r, Ctry);
    ProposesIs(a, r, TwnNm);
    LeafLeft(a, a, r, Ctry);
    LeafLeft(RepairedLeaf(a, a, r, Ctry), a, r, TwnNm);
  }

  lemma LeafLeft(a: PostalAddress, original: PostalAddress, r: Analysis, leaf: Leaf)
    requires Read(original) && Own(a, leaf) == Own(original, leaf)
    ensures var b := RepairedLeaf(a, original, r, leaf);
      && Own(b, leaf) == Left(Resolved(r, leaf), Own(original, leaf))
      && (leaf.Ctry? ==> b.townName == a.townName) && (leaf.TwnNm? ==> b.country == a.country)
      && b.streetName == a.streetName && b.buildingNumber == a.buildingNumber && b.postcode == a.postcode
      && b.addressLines == a.addressLines && b.sourcePath == a.sourcePath
  {
    ProposesIs(original, r, leaf);
  }

  /** Names and paths of the parties, and everything but their addresses. */
  predicate SameButAddresses(x: Transaction, y: Transaction) {
    && y.instructionId == x.instructionId && y.endToEndId == x.endToEndId && y.transactionId == x.transactionId
    && y.amount == x.amount && y.debtorAccount == x.debtorAccount && y.creditorAccount == x.creditorAccount
    && y.remittance == x.remittance && y.sourcePath == x.sourcePath
    && SameParty(x.debtor, y.debtor) && SameParty(x.creditor, y.creditor)
    && SameAgent(x.debtorAgent, y.debtorAgent) && SameAgent(x.creditorAgent, y.creditorAgent)
  }

  predicate SameParty(p: Option<Party>, q: Option<Party>) {
    (p.Some? <==> q.Some?) && (p.Some? ==> q.value.name == p.value.name && q.value.sourcePath == p.value.sourcePath)
  }

  predicate SameAgent(p: Option<Agent>, q: Option<Agent>) {
    && (p.Some? <==> q.Some?)
    && (p.Some? ==>
          && q.value.name == p.value.name && q.value.bic == p.value.bic
          && q.value.clearingMember == p.value.clearingMember && q.value.sourcePath == p.value.sourcePath)
  }

  lemma RepairedSlot(x: Transaction, analyze: PostalAddress -> Analysis, slot: Slot)
    ensures AddressOf(RepairedTx(x, analyze), slot)
      == var a := AddressOf(x, slot); if a.Some? then Some(RepairedAddress(a.value, analyze(a.value))) else None
    ensures SameButAddresses(x, RepairedTx(x, analyze))
  {
  }

  /** For every document and provider, and in terms of what the provider resolves: in the repaired document
      each country and town reads as resolved, trimmed, where a value was resolved, and as before where none
      was; every other field of every transaction reads as before. */
  lemma RepairMeans(t: Tree, analyze: PostalAddress -> Analysis, i: nat, slot: Slot)
    requires Valid(t) && IsDocument(t) && i < |TxElements(t)|
    ensures WellFormedChanges(ChangesOf(EditsOf(MapMessage(t), analyze)))
    ensures var before, after := MapMessage(t), MapMessage(ApplyAll(t, ChangesOf(EditsOf(MapMessage(t), analyze))).0);
      && after.messageId == before.messageId && after.created == before.created
      && |after.transactions| == |before.transactions| && SameButAddresses(before.transactions[i], after.transactions[i])
      && var a, b := AddressOf(before.transactions[i], slot), AddressOf(after.transactions[i], slot);
      (a.Some? <==> b.Some?) && (a.Some? ==> LeftAddress(a.value, b.value, analyze(a.value)))
  {
    RepairIsLens(t, analyze);
    var a := AddressOf(MapMessage(t).transactions[i], slot);
    RepairedSlot(MapMessage(t).transactions[i], analyze, slot);
    MappedIsRead(t, i, slot);
    if a.Some? {
      RepairedIsLeft(a.value, analyze(a.value));
    }
  }
}
