// The pacs.008 adapter: what it reads from a document into the canonical message, the path it
// prints beside every object it reads, and the proof that each printed path leads back to the
// element that was read.
module Pacs008 {
  import opened Strings
  import opened Sorting
  import opened XmlTree

  datatype PostalAddress = PostalAddress(
    streetName: Option<string>, buildingNumber: Option<string>, postcode: Option<string>,
    townName: Option<string>, country: Option<string>, addressLines: seq<string>,
    sourcePath: string, originalFields: map<string, string>)

  datatype Party = Party(name: Option<string>, address: Option<PostalAddress>, sourcePath: string)

  datatype Account = Account(
    iban: Option<string>, otherIdentification: Option<string>, name: Option<string>, sourcePath: string)

  datatype Agent = Agent(
    bic: Option<string>, clearingMember: Option<string>, name: Option<string>,
    address: Option<PostalAddress>, sourcePath: string)

  datatype Remittance = Remittance(unstructured: seq<string>, sourcePath: string)

  /** The amount's own text and currency; their conversion to minor units reads nothing else. */
  datatype Amount = Amount(text: string, currency: string)

  datatype Transaction = Transaction(
    instructionId: Option<string>, endToEndId: Option<string>, transactionId: Option<string>,
    amount: Option<Amount>, debtor: Option<Party>, creditor: Option<Party>,
    debtorAccount: Option<Account>, creditorAccount: Option<Account>,
    debtorAgent: Option<Agent>, creditorAgent: Option<Agent>,
    remittance: Option<Remittance>, sourcePath: string)

  datatype Message = Message(messageId: Option<string>, created: Option<string>, transactions: seq<Transaction>)

  // ----- element helpers -----

  function Children(t: Tree, el: Option<Id>, name: string): seq<Id> {
    if el.None? then [] else KidsNamed(t, el.value, name)
  }

  function Child(t: Tree, el: Option<Id>, name: string): Option<Id> {
    var matches := Children(t, el, name);
    if matches == [] then None else Some(matches[0])
  }

  /** An element's text as the adapter keeps it: trimmed, and absent when blank. */
  function TextValue(text: Option<string>): Option<string> {
    if text.None? || Strip(text.value) == "" then None else Some(Strip(text.value))
  }

  function Text(t: Tree, el: Option<Id>): Option<string> {
    if el.None? then None else TextValue(TextOf(t, el.value))
  }

  /** The texts that are present, in document order. */
  function Texts(t: Tree, els: seq<Id>): seq<string> {
    if els == [] then []
    else (if Text(t, Some(els[0])).Some? then [Text(t, Some(els[0])).value] else []) + Texts(t, els[1..])
  }

  // ----- the adapter -----

  const ADDRESS_FIELDS: seq<string> := ["StrtNm", "BldgNb", "PstCd", "TwnNm", "Ctry"]

  /** The fields of an address element that carry text. */
  function OriginalFields(t: Tree, el: Id, names: seq<string>): map<string, string> {
    if names == [] then map[]
    else
      var rest := OriginalFields(t, el, names[..|names| - 1]);
      var value := Text(t, Child(t, Some(el), names[|names| - 1]));
      if value.Some? then rest[names[|names| - 1] := value.value] else rest
  }

  function Get(fields: map<string, string>, name: string): Option<string> {
    if name in fields then Some(fields[name]) else None
  }

  function AddressFrom(fields: map<string, string>, lines: seq<string>, path: string): PostalAddress {
    PostalAddress(Get(fields, "StrtNm"), Get(fields, "BldgNb"), Get(fields, "PstCd"),
                  Get(fields, "TwnNm"), Get(fields, "Ctry"), lines, path, fields)
  }

  function MapAddress(t: Tree, el: Option<Id>, path: string): Option<PostalAddress> {
    if el.None? then None
    else Some(AddressFrom(OriginalFields(t, el.value, ADDRESS_FIELDS), Texts(t, Children(t, el, "AdrLine")), path))
  }

  /** The loop that fills `original_fields`. */
  method ReadOriginalFields(t: Tree, el: Id, names: seq<string>) returns (fields: map<string, string>)
    ensures fields == OriginalFields(t, el, names)
  {
    fields := map[];
    for i := 0 to |names|
      invariant fields == OriginalFields(t, el, names[..i])
    {
      assert names[..i + 1][..i] == names[..i];
      var value := Text(t, Child(t, Some(el), names[i]));
      if value.Some? {
        fields := fields[names[i] := value.value];
      }
    }
    assert names[..|names|] == names;
  }

  function MapParty(t: Tree, el: Option<Id>, path: string): Option<Party> {
    if el.None? then None
    else Some(Party(Text(t, Child(t, el, "Nm")), MapAddress(t, Child(t, el, "PstlAdr"), path + "/PstlAdr"), path))
  }

  function MapAccount(t: Tree, el: Option<Id>, path: string): Option<Account> {
    if el.None? then None
    else
      var id := Child(t, el, "Id");
      Some(Account(Text(t, Child(t, id, "IBAN")), Text(t, Child(t, Child(t, id, "Othr"), "Id")),
                   Text(t, Child(t, el, "Nm")), path))
  }

  function MapAgent(t: Tree, el: Option<Id>, path: string): Option<Agent> {
    if el.None? then None
    else
      var fi := Child(t, el, "FinInstnId");
      Some(Agent(Text(t, Child(t, fi, "BICFI")), Text(t, Child(t, Child(t, fi, "ClrSysMmbId"), "MmbId")),
                 Text(t, Child(t, fi, "Nm")),
                 MapAddress(t, Child(t, fi, "PstlAdr"), path + "/FinInstnId/PstlAdr"), path))
  }

  function MapRemittance(t: Tree, el: Option<Id>, path: string): Option<Remittance> {
    if el.None? then None else Some(Remittance(Texts(t, Children(t, el, "Ustrd")), path))
  }

  function MapAmount(t: Tree, el: Option<Id>): Option<Amount> {
    if el.None? then None
    else
      var text := TextOf(t, el.value);
      var attrs := if el.value in t.attrs then t.attrs[el.value] else map[];
      Some(Amount(if text.None? || text.value == "" then "0" else Strip(text.value),
                  if "Ccy" in attrs && attrs["Ccy"] != "" then attrs["Ccy"] else "EUR"))
  }

  function TxStep(index: nat): string { "CdtTrfTxInf[" + Decimal(index) + "]" }

  function TxPath(index: nat): string {
    "/Document" + "/FIToFICstmrCdtTrf" + "/" + TxStep(index)
  }

  function MapTransaction(t: Tree, tx: Id, index: nat): Transaction {
    var el, path := Some(tx), TxPath(index);
    var pmt := Child(t, el, "PmtId");
    Transaction(
      Text(t, Child(t, pmt, "InstrId")), Text(t, Child(t, pmt, "EndToEndId")), Text(t, Child(t, pmt, "TxId")),
      MapAmount(t, Child(t, Child(t, el, "Amt"), "InstdAmt")),
      MapParty(t, Child(t, el, "Dbtr"), path + "/Dbtr"), MapParty(t, Child(t, el, "Cdtr"), path + "/Cdtr"),
      MapAccount(t, Child(t, el, "DbtrAcct"), path + "/DbtrAcct"),
      MapAccount(t, Child(t, el, "CdtrAcct"), path + "/CdtrAcct"),
      MapAgent(t, Child(t, el, "DbtrAgt"), path + "/DbtrAgt"), MapAgent(t, Child(t, el, "CdtrAgt"), path + "/CdtrAgt"),
      MapRemittance(t, Child(t, el, "RmtInf"), path + "/RmtInf"), path)
  }

  function MessageRoot(t: Tree): Option<Id> { Child(t, Some(t.root), "FIToFICstmrCdtTrf") }

  function TxElements(t: Tree): seq<Id> { Children(t, MessageRoot(t), "CdtTrfTxInf") }

  /** `map_pacs008_to_canonical` */
  function MapMessage(t: Tree): Message {
    var grp := Child(t, MessageRoot(t), "GrpHdr");
    var txs := TxElements(t);
    Message(Text(t, Child(t, grp, "MsgId")), Text(t, Child(t, grp, "CreDtTm")),
            seq(|txs|, i requires 0 <= i < |txs| => MapTransaction(t, txs[i], i)))
  }

  // ----- printed paths -----

  /** A path step that is just an element name. */
  predicate Plain(name: string) { name != "" && '/' !in name && '[' !in name }

  function PathOf(steps: seq<string>): string {
    if steps == [] then "" else "/" + (steps[0] + PathOf(steps[1..]))
  }

  lemma Assoc(a: string, b: string, c: string)
    ensures a + (b + c) == a + b + c
  {
  }

  /** Steps that a separator can keep apart. */
  predicate SlashFree(steps: seq<string>) {
    steps == [] || (steps[0] != "" && '/' !in steps[0] && SlashFree(steps[1..]))
  }

  lemma {:induction false} SlashFreeAppend(a: seq<string>, b: seq<string>)
    requires SlashFree(a) && SlashFree(b)
    ensures SlashFree(a + b)
  {
    if a == [] {
      assert a + b == b;
    } else {
      SlashFreeAppend(a[1..], b);
      assert (a + b)[1..] == a[1..] + b;
    }
  }

  /** The rest of a printed path after its first slash splits into exactly the steps. */
  lemma {:induction false} SplitAfterSlash(first: string, rest: seq<string>)
    requires '/' !in first && SlashFree(rest)
    ensures Split(first + PathOf(rest), '/') == [first] + rest
    decreases |rest|
  {
    if rest == [] {
      SplitPlain(first, '/');
      assert first + "" == first;
    } else {
      var tail := rest[0] + PathOf(rest[1..]);
      SplitAfterSlash(rest[0], rest[1..]);
      assert [rest[0]] + rest[1..] == rest;
      SplitCons(first, '/', tail);
      Assoc(first, ['/'], tail);
    }
  }

  lemma {:induction false} KeepNonEmpty(steps: seq<string>)
    requires SlashFree(steps)
    ensures Filter(NonEmpty(), steps) == steps
  {
    if steps != [] {
      KeepNonEmpty(steps[1..]);
    }
  }

  /** Splitting a printed path recovers its steps. */
  lemma SegmentsOfPath(steps: seq<string>)
    requires SlashFree(steps)
    ensures Segments(PathOf(steps)) == steps
  {
    SplitAfterSlash("", steps);
    assert "" + PathOf(steps) == PathOf(steps);
    FilterCons(NonEmpty(), "", steps);
    KeepNonEmpty(steps);
  }

  lemma {:induction false} PathOfAppend(a: seq<string>, b: seq<string>)
    ensures PathOf(a + b) == PathOf(a) + PathOf(b)
  {
    if a == [] {
      assert a + b == b;
    } else {
      PathOfAppend(a[1..], b);
      assert (a + b)[1..] == a[1..] + b;
      Assoc(a[0], PathOf(a[1..]), PathOf(b));
      Assoc("/", a[0] + PathOf(a[1..]), PathOf(b));
    }
  }

  function TxSteps(index: nat): seq<string> { ["Document", "FIToFICstmrCdtTrf", TxStep(index)] }

  lemma PathOfThree(a: string, b: string, c: string)
    ensures PathOf([a, b, c]) == "/" + a + ("/" + b) + "/" + c
  {
    assert [a, b, c][1..] == [b, c] && [b, c][1..] == [c] && [c][1..] == [];
    assert PathOf([c]) == "/" + c;
    assert PathOf([b, c]) == "/" + b + ("/" + c);
    assert PathOf([a, b, c]) == "/" + a + ("/" + b + ("/" + c));
  }

  lemma TxPathSteps(index: nat)
    ensures PathOf(TxSteps(index)) == TxPath(index)
  {
    PathOfThree("Document", "FIToFICstmrCdtTrf", TxStep(index));
    assert "/" + "Document" == "/Document" && "/" + "FIToFICstmrCdtTrf" == "/FIToFICstmrCdtTrf";
  }

  lemma StripDigits(s: string)
    requires s != "" && AllDigits(s)
    ensures StripBrackets(s + "]") == s
  {
    assert (s + "]")[..|s|] == s;
    assert s[|s| - 1] in s;
  }

  /** Reading back a printed transaction step gives its name and its index. */
  lemma TxStepParses(index: nat)
    ensures StepName(TxStep(index)) == "CdtTrfTxInf"
    ensures WellFormedStep(TxStep(index)) && StepIndex(TxStep(index)) == index
  {
    var step := TxStep(index);
    assert step == "CdtTrfTxInf" + ['['] + (Decimal(index) + "]");
    FindAfter("CdtTrfTxInf", '[', Decimal(index) + "]");
    assert step[..11] == "CdtTrfTxInf" && step[12..] == Decimal(index) + "]";
    StripDigits(Decimal(index));
    ParseOfDecimal(index);
  }

  lemma PlainStepParses(name: string)
    requires Plain(name)
    ensures StepName(name) == name && WellFormedStep(name) && StepIndex(name) == 0
  {
    FindNone(name, '[');
    assert name[..|name|] == name;
  }

  // ----- printed paths lead back -----

  /** One child of each name in turn. */
  function Chain(t: Tree, el: Option<Id>, names: seq<string>): Option<Id>
    decreases |names|
  {
    if names == [] then el else Chain(t, Child(t, el, names[0]), names[1..])
  }

  lemma {:induction false} ChainOfNone(t: Tree, names: seq<string>)
    ensures Chain(t, None, names) == None
    decreases |names|
  {
    if names != [] {
      ChainOfNone(t, names[1..]);
    }
  }

  /** Plain names, one after the other. */
  predicate AllPlain(names: seq<string>) {
    names == [] || (Plain(names[0]) && AllPlain(names[1..]))
  }

  lemma {:induction false} PlainSteps(names: seq<string>)
    requires AllPlain(names)
    ensures SlashFree(names) && WellFormedSteps(names)
  {
    if names != [] {
      PlainSteps(names[1..]);
      PlainStepParses(names[0]);
    }
  }

  lemma {:induction false} DescendChain(t: Tree, el: Id, names: seq<string>)
    requires AllPlain(names) && WellFormedSteps(names)
    ensures Descend(t, el, names) == Chain(t, Some(el), names)
    decreases |names|
  {
    if names != [] {
      PlainStepParses(names[0]);
      var c := ChildByLocal(t, el, names[0]);
      assert c == Child(t, Some(el), names[0]);
      if c.Some? {
        DescendChain(t, c.value, names[1..]);
      } else {
        ChainOfNone(t, names[1..]);
      }
    }
  }

  predicate IsDocument(t: Tree) { NameOf(t, t.root) == "Document" }

  lemma ThreeSteps(a: string, b: string, c: string, names: seq<string>)
    requires WellFormedStep(a) && WellFormedStep(b) && WellFormedStep(c) && WellFormedSteps(names)
    requires SlashFree([a]) && SlashFree([b]) && SlashFree([c]) && SlashFree(names)
    ensures WellFormedSteps([a, b, c] + names) && SlashFree([a, b, c] + names)
  {
    var segs := [a, b, c] + names;
    assert segs[1..] == [b, c] + names && segs[1..][1..] == [c] + names && segs[1..][1..][1..] == names;
  }

  lemma DescendFirst(t: Tree, node: Id, step: string, rest: seq<string>, child: Id)
    requires WellFormedStep(step) && WellFormedSteps(rest) && WellFormedSteps([step] + rest)
    requires ChildByLocal(t, node, step) == Some(child)
    ensures Descend(t, node, [step] + rest) == Descend(t, child, rest)
  {
    assert ([step] + rest)[1..] == rest;
  }

  lemma ResolveThree(t: Tree, a: string, b: string, c: string, names: seq<string>, mid: Id, el: Id)
    requires WellFormedSteps([a, b, c] + names) && WellFormedSteps(names)
    requires WellFormedStep(b) && WellFormedStep(c)
    requires NameOf(t, t.root) == StepName(a)
    requires ChildByLocal(t, t.root, b) == Some(mid) && ChildByLocal(t, mid, c) == Some(el)
    ensures Resolve(t, [a, b, c] + names) == Descend(t, el, names)
  {
    var one := [c] + names;
    var two := [b] + one;
    assert one[1..] == names && two[1..] == one;
    assert [a, b, c] + names == [a] + two;
    assert ([a] + two)[1..] == two;
    DescendFirst(t, mid, c, names, el);
    DescendFirst(t, t.root, b, one, mid);
  }

  lemma FixedNames()
    ensures Plain("Document") && Plain("FIToFICstmrCdtTrf")
    ensures SlashFree(["Document"]) && SlashFree(["FIToFICstmrCdtTrf"])
  {
  }

  lemma TxStepSlashFree(index: nat)
    ensures SlashFree([TxStep(index)])
  {
    var d := Decimal(index);
    assert forall c :: c in d ==> IsDigit(c);
    assert '/' !in d && '/' !in "CdtTrfTxInf[" && '/' !in "]";
  }

  lemma TxStepsWellFormed(index: nat, names: seq<string>)
    requires AllPlain(names)
    ensures WellFormedSteps(TxSteps(index) + names) && SlashFree(TxSteps(index) + names)
  {
    TxStepParses(index);
    FixedNames();
    PlainStepParses("Document");
    PlainStepParses("FIToFICstmrCdtTrf");
    PlainSteps(names);
    TxStepSlashFree(index);
    ThreeSteps("Document", "FIToFICstmrCdtTrf", TxStep(index), names);
  }

  /** Following printed transaction steps and names finds the child the adapter read. */
  lemma ResolveTx(t: Tree, index: nat, names: seq<string>)
    requires IsDocument(t) && index < |TxElements(t)|
    requires AllPlain(names) && WellFormedSteps(TxSteps(index) + names)
    ensures Resolve(t, TxSteps(index) + names) == Chain(t, Some(TxElements(t)[index]), names)
  {
    TxStepParses(index);
    FixedNames();
    PlainStepParses("Document");
    PlainStepParses("FIToFICstmrCdtTrf");
    PlainSteps(names);
    assert ChildByLocal(t, t.root, "FIToFICstmrCdtTrf") == MessageRoot(t);
    ResolveThree(t, "Document", "FIToFICstmrCdtTrf", TxStep(index), names, MessageRoot(t).value, TxElements(t)[index]);
    DescendChain(t, TxElements(t)[index], names);
  }

  /** A printed path leads to the element the adapter read. */
  lemma NavigateTx(t: Tree, index: nat, names: seq<string>)
    requires IsDocument(t) && index < |TxElements(t)|
    requires AllPlain(names)
    ensures WellFormedPath(TxPath(index) + PathOf(names))
    ensures Segments(TxPath(index) + PathOf(names)) == TxSteps(index) + names
    ensures Navigate(t, TxPath(index) + PathOf(names)) == Chain(t, Some(TxElements(t)[index]), names)
  {
    TxStepsWellFormed(index, names);
    ResolveTx(t, index, names);
    TxPathSteps(index);
    PathOfAppend(TxSteps(index), names);
    SegmentsOfPath(TxSteps(index) + names);
  }

  // ----- every value was read at the path printed for it -----

  datatype Slot = Dbtr | Cdtr | DbtrAgt | CdtrAgt

  /** The steps from a transaction to the postal address of a party or agent. */
  function SlotNames(slot: Slot): seq<string> {
    match slot
    case Dbtr => ["Dbtr", "PstlAdr"]
    case Cdtr => ["Cdtr", "PstlAdr"]
    case DbtrAgt => ["DbtrAgt", "FinInstnId", "PstlAdr"]
    case CdtrAgt => ["CdtrAgt", "FinInstnId", "PstlAdr"]
  }

  function SlotPath(index: nat, slot: Slot): string { TxPath(index) + PathOf(SlotNames(slot)) }

  /** The postal address element of a party or agent. */
  function AddressNode(t: Tree, tx: Id, slot: Slot): Option<Id> {
    match slot
    case Dbtr => Child(t, Child(t, Some(tx), "Dbtr"), "PstlAdr")
    case Cdtr => Child(t, Child(t, Some(tx), "Cdtr"), "PstlAdr")
    case DbtrAgt => Child(t, Child(t, Child(t, Some(tx), "DbtrAgt"), "FinInstnId"), "PstlAdr")
    case CdtrAgt => Child(t, Child(t, Child(t, Some(tx), "CdtrAgt"), "FinInstnId"), "PstlAdr")
  }

  function PartyAddress(party: Option<Party>): Option<PostalAddress> {
    if party.None? then None else party.value.address
  }

  function AgentAddress(agent: Option<Agent>): Option<PostalAddress> {
    if agent.None? then None else agent.value.address
  }

  function AddressOf(tx: Transaction, slot: Slot): Option<PostalAddress> {
    match slot
    case Dbtr => PartyAddress(tx.debtor)
    case Cdtr => PartyAddress(tx.creditor)
    case DbtrAgt => AgentAddress(tx.debtorAgent)
    case CdtrAgt => AgentAddress(tx.creditorAgent)
  }

  /** The path `base` + steps is well formed and the text found there is `value`. */
  predicate ReadAt(t: Tree, base: string, names: seq<string>, value: Option<string>) {
    WellFormedPath(base + PathOf(names)) && Text(t, Navigate(t, base + PathOf(names))) == value
  }

  /** The path is well formed and the texts of the `name` children found there are `lines`. */
  predicate LinesReadAt(t: Tree, path: string, name: string, lines: seq<string>) {
    WellFormedPath(path) && lines == Texts(t, Children(t, Navigate(t, path), name))
  }

  predicate AddressReadAtItsPath(t: Tree, a: PostalAddress) {
    && ReadAt(t, a.sourcePath, ["StrtNm"], a.streetName)
    && ReadAt(t, a.sourcePath, ["BldgNb"], a.buildingNumber)
    && ReadAt(t, a.sourcePath, ["PstCd"], a.postcode)
    && ReadAt(t, a.sourcePath, ["TwnNm"], a.townName)
    && ReadAt(t, a.sourcePath, ["Ctry"], a.country)
    && LinesReadAt(t, a.sourcePath, "AdrLine", a.addressLines)
  }

  predicate PartyReadAtItsPath(t: Tree, p: Option<Party>) {
    p.Some? ==> ReadAt(t, p.value.sourcePath, ["Nm"], p.value.name)
  }

  predicate AccountReadAtItsPath(t: Tree, a: Option<Account>) {
    a.Some? ==>
      && ReadAt(t, a.value.sourcePath, ["Id", "IBAN"], a.value.iban)
      && ReadAt(t, a.value.sourcePath, ["Id", "Othr", "Id"], a.value.otherIdentification)
      && ReadAt(t, a.value.sourcePath, ["Nm"], a.value.name)
  }

  predicate AgentReadAtItsPath(t: Tree, a: Option<Agent>) {
    a.Some? ==>
      && ReadAt(t, a.value.sourcePath, ["FinInstnId", "BICFI"], a.value.bic)
      && ReadAt(t, a.value.sourcePath, ["FinInstnId", "ClrSysMmbId", "MmbId"], a.value.clearingMember)
      && ReadAt(t, a.value.sourcePath, ["FinInstnId", "Nm"], a.value.name)
  }

  predicate RemittanceReadAtItsPath(t: Tree, r: Option<Remittance>) {
    r.Some? ==> LinesReadAt(t, r.value.sourcePath, "Ustrd", r.value.unstructured)
  }

  /** The amount below a transaction's path. */
  predicate AmountReadAt(t: Tree, base: string, amount: Option<Amount>) {
    var path := base + PathOf(["Amt", "InstdAmt"]);
    WellFormedPath(path) && amount == MapAmount(t, Navigate(t, path))
  }

  lemma {:induction false} ChainAppend(t: Tree, el: Option<Id>, a: seq<string>, b: seq<string>)
    ensures Chain(t, el, a + b) == Chain(t, Chain(t, el, a), b)
    decreases |a|
  {
    if a == [] {
      assert a + b == b;
    } else {
      assert (a + b)[1..] == a[1..] + b;
      ChainAppend(t, Child(t, el, a[0]), a[1..], b);
    }
  }

  lemma ChainOne(t: Tree, el: Option<Id>, a: string)
    ensures Chain(t, el, [a]) == Child(t, el, a)
  {
    assert [a][1..] == [];
  }

  lemma ChainTwo(t: Tree, el: Option<Id>, a: string, b: string)
    ensures Chain(t, el, [a, b]) == Child(t, Child(t, el, a), b)
  {
    assert [a, b][1..] == [b];
    ChainOne(t, Child(t, el, a), b);
  }

  lemma ChainThree(t: Tree, el: Option<Id>, a: string, b: string, c: string)
    ensures Chain(t, el, [a, b, c]) == Child(t, Child(t, Child(t, el, a), b), c)
  {
    assert [a, b, c][1..] == [b, c];
    ChainTwo(t, Child(t, el, a), b, c);
  }

  lemma {:induction false} PlainAppend(a: seq<string>, b: seq<string>)
    requires AllPlain(a) && AllPlain(b)
    ensures AllPlain(a + b)
  {
    if a == [] {
      assert a + b == b;
    } else {
      PlainAppend(a[1..], b);
      assert (a + b)[1..] == a[1..] + b;
    }
  }

  /** What is found below an object's own printed path. */
  lemma ReadBelow(t: Tree, index: nat, above: seq<string>, names: seq<string>)
    requires IsDocument(t) && index < |TxElements(t)|
    requires AllPlain(above) && AllPlain(names)
    ensures ReadAt(t, TxPath(index) + PathOf(above), names,
                   Text(t, Chain(t, Chain(t, Some(TxElements(t)[index]), above), names)))
  {
    PlainAppend(above, names);
    NavigateTx(t, index, above + names);
    PathOfAppend(above, names);
    Assoc(TxPath(index), PathOf(above), PathOf(names));
    ChainAppend(t, Some(TxElements(t)[index]), above, names);
  }

  lemma OneMoreField(t: Tree, el: Id, front: seq<string>, last: string, name: string)
    ensures var value := Text(t, Child(t, Some(el), last));
      Get(OriginalFields(t, el, front + [last]), name)
      == if name == last && value.Some? then value else Get(OriginalFields(t, el, front), name)
  {
    var names := front + [last];
    assert names[..|names| - 1] == front && names[|names| - 1] == last;
  }

  lemma {:induction false} OriginalFieldsAt(t: Tree, el: Id, names: seq<string>, name: string)
    ensures Get(OriginalFields(t, el, names), name) == if name in names then Text(t, Child(t, Some(el), name)) else None
  {
    if names != [] {
      var front, last := names[..|names| - 1], names[|names| - 1];
      assert names == front + [last];
      OriginalFieldsAt(t, el, front, name);
      OneMoreField(t, el, front, last, name);
    }
  }

  lemma PathOfOne(a: string)
    ensures PathOf([a]) == "/" + a
  {
    assert [a][1..] == [];
  }

  lemma TwoPlain(a: string, b: string)
    requires Plain(a) && Plain(b)
    ensures AllPlain([a, b])
  {
    assert [a, b][1..] == [b] && [b][1..] == [];
  }

  lemma ThreePlain(a: string, b: string, c: string)
    requires Plain(a) && Plain(b) && Plain(c)
    ensures AllPlain([a, b, c])
  {
    assert [a, b, c][1..] == [b, c];
    TwoPlain(b, c);
  }

  lemma SlotPlain(slot: Slot)
    ensures AllPlain(SlotNames(slot))
  {
    match slot
    case Dbtr => TwoPlain("Dbtr", "PstlAdr");
    case Cdtr => TwoPlain("Cdtr", "PstlAdr");
    case DbtrAgt => ThreePlain("DbtrAgt", "FinInstnId", "PstlAdr");
    case CdtrAgt => ThreePlain("CdtrAgt", "FinInstnId", "PstlAdr");
  }

  // The paths the adapter prints as literals, step by step.
  lemma PrintedLiterals()
    ensures "/Dbtr" == "/" + "Dbtr" && "/Cdtr" == "/" + "Cdtr"
    ensures "/DbtrAgt" == "/" + "DbtrAgt" && "/CdtrAgt" == "/" + "CdtrAgt"
    ensures "/PstlAdr" == "/" + "PstlAdr"
    ensures "/FinInstnId/PstlAdr" == "/" + "FinInstnId" + ("/" + "PstlAdr")
  {
  }

  lemma PartyAddressPath(base: string, a: string)
    ensures base + ("/" + a) + "/PstlAdr" == base + PathOf([a, "PstlAdr"])
  {
    PrintedLiterals();
    PathOfAppend([a], ["PstlAdr"]);
    PathOfOne(a);
    PathOfOne("PstlAdr");
    assert [a] + ["PstlAdr"] == [a, "PstlAdr"];
    Assoc(base, "/" + a, "/PstlAdr");
  }

  lemma AgentAddressPath(base: string, a: string)
    ensures base + ("/" + a) + "/FinInstnId/PstlAdr" == base + PathOf([a, "FinInstnId", "PstlAdr"])
  {
    PrintedLiterals();
    PathOfAppend([a], ["FinInstnId", "PstlAdr"]);
    PathOfAppend(["FinInstnId"], ["PstlAdr"]);
    PathOfOne(a);
    PathOfOne("FinInstnId");
    PathOfOne("PstlAdr");
    assert ["FinInstnId"] + ["PstlAdr"] == ["FinInstnId", "PstlAdr"];
    assert [a] + ["FinInstnId", "PstlAdr"] == [a, "FinInstnId", "PstlAdr"];
    Assoc(base, "/" + a, "/FinInstnId/PstlAdr");
  }

  lemma SlotChain(t: Tree, tx: Id, slot: Slot)
    ensures Chain(t, Some(tx), SlotNames(slot)) == AddressNode(t, tx, slot)
  {
    match slot
    case Dbtr => ChainTwo(t, Some(tx), "Dbtr", "PstlAdr");
    case Cdtr => ChainTwo(t, Some(tx), "Cdtr", "PstlAdr");
    case DbtrAgt => ChainThree(t, Some(tx), "DbtrAgt", "FinInstnId", "PstlAdr");
    case CdtrAgt => ChainThree(t, Some(tx), "CdtrAgt", "FinInstnId", "PstlAdr");
  }

  lemma PartyAddressAt(t: Tree, el: Option<Id>, base: string, a: string)
    ensures PartyAddress(MapParty(t, el, base + ("/" + a)))
      == MapAddress(t, Child(t, el, "PstlAdr"), base + PathOf([a, "PstlAdr"]))
  {
    PartyAddressPath(base, a);
  }

  lemma AgentAddressAt(t: Tree, el: Option<Id>, base: string, a: string)
    ensures AgentAddress(MapAgent(t, el, base + ("/" + a)))
      == MapAddress(t, Child(t, Child(t, el, "FinInstnId"), "PstlAdr"), base + PathOf([a, "FinInstnId", "PstlAdr"]))
  {
    AgentAddressPath(base, a);
  }

  /** The adapter prints, beside each address, the path of the element it was read from. */
  lemma SlotAddress(t: Tree, tx: Id, index: nat, slot: Slot)
    ensures AddressOf(MapTransaction(t, tx, index), slot) == MapAddress(t, AddressNode(t, tx, slot), SlotPath(index, slot))
  {
    PrintedLiterals();
    match slot
    case Dbtr => PartyAddressAt(t, Child(t, Some(tx), "Dbtr"), TxPath(index), "Dbtr");
    case Cdtr => PartyAddressAt(t, Child(t, Some(tx), "Cdtr"), TxPath(index), "Cdtr");
    case DbtrAgt => AgentAddressAt(t, Child(t, Some(tx), "DbtrAgt"), TxPath(index), "DbtrAgt");
    case CdtrAgt => AgentAddressAt(t, Child(t, Some(tx), "CdtrAgt"), TxPath(index), "CdtrAgt");
  }

  lemma OnePlain(a: string)
    requires Plain(a)
    ensures AllPlain([a])
  {
    assert [a][1..] == [];
  }

  /** A named child of an object, read below the object's printed path. */
  lemma ReadOne(t: Tree, index: nat, above: seq<string>, a: string)
    requires IsDocument(t) && index < |TxElements(t)| && AllPlain(above) && Plain(a)
    ensures ReadAt(t, TxPath(index) + PathOf(above), [a],
                   Text(t, Child(t, Chain(t, Some(TxElements(t)[index]), above), a)))
  {
    OnePlain(a);
    ReadBelow(t, index, above, [a]);
    ChainOne(t, Chain(t, Some(TxElements(t)[index]), above), a);
  }

  lemma ReadTwo(t: Tree, index: nat, above: seq<string>, a: string, b: string)
    requires IsDocument(t) && index < |TxElements(t)| && AllPlain(above) && Plain(a) && Plain(b)
    ensures ReadAt(t, TxPath(index) + PathOf(above), [a, b],
                   Text(t, Child(t, Child(t, Chain(t, Some(TxElements(t)[index]), above), a), b)))
  {
    TwoPlain(a, b);
    ReadBelow(t, index, above, [a, b]);
    ChainTwo(t, Chain(t, Some(TxElements(t)[index]), above), a, b);
  }

  lemma ReadThree(t: Tree, index: nat, above: seq<string>, a: string, b: string, c: string)
    requires IsDocument(t) && index < |TxElements(t)| && AllPlain(above) && Plain(a) && Plain(b) && Plain(c)
    ensures ReadAt(t, TxPath(index) + PathOf(above), [a, b, c],
                   Text(t, Child(t, Child(t, Child(t, Chain(t, Some(TxElements(t)[index]), above), a), b), c)))
  {
    ThreePlain(a, b, c);
    ReadBelow(t, index, above, [a, b, c]);
    ChainThree(t, Chain(t, Some(TxElements(t)[index]), above), a, b, c);
  }

  lemma AddressNamesPlain()
    ensures Plain("StrtNm") && Plain("BldgNb") && Plain("PstCd") && Plain("TwnNm") && Plain("Ctry")
  {
  }

  lemma AccountNamesPlain()
    ensures Plain("Id") && Plain("IBAN") && Plain("Othr") && Plain("Nm") && Plain("DbtrAcct") && Plain("CdtrAcct")
  {
  }

  lemma AgentNamesPlain()
    ensures Plain("FinInstnId") && Plain("BICFI") && Plain("ClrSysMmbId") && Plain("MmbId") && Plain("Nm")
  {
  }

  lemma PartyNamesPlain()
    ensures Plain("Dbtr") && Plain("Cdtr") && Plain("DbtrAgt") && Plain("CdtrAgt") && Plain("Nm")
  {
  }

  lemma IdentifierNamesPlain()
    ensures Plain("PmtId") && Plain("InstrId") && Plain("EndToEndId") && Plain("TxId")
  {
  }

  lemma AddressFieldsInOrder(t: Tree, el: Id, path: string)
    ensures var a := MapAddress(t, Some(el), path).value;
      && a.streetName == Text(t, Child(t, Some(el), "StrtNm"))
      && a.buildingNumber == Text(t, Child(t, Some(el), "BldgNb"))
      && a.postcode == Text(t, Child(t, Some(el), "PstCd"))
      && a.townName == Text(t, Child(t, Some(el), "TwnNm"))
      && a.country == Text(t, Child(t, Some(el), "Ctry"))
      && a.country == Get(a.originalFields, "Ctry") && a.townName == Get(a.originalFields, "TwnNm")
  {
    OriginalFieldsAt(t, el, ADDRESS_FIELDS, "StrtNm");
    OriginalFieldsAt(t, el, ADDRESS_FIELDS, "BldgNb");
    OriginalFieldsAt(t, el, ADDRESS_FIELDS, "PstCd");
    OriginalFieldsAt(t, el, ADDRESS_FIELDS, "TwnNm");
    OriginalFieldsAt(t, el, ADDRESS_FIELDS, "Ctry");
  }

  lemma AddressElementReads(t: Tree, index: nat, names: seq<string>, el: Id, path: string)
    requires IsDocument(t) && index < |TxElements(t)| && AllPlain(names)
    requires Chain(t, Some(TxElements(t)[index]), names) == Some(el) && path == TxPath(index) + PathOf(names)
    ensures AddressReadAtItsPath(t, MapAddress(t, Some(el), path).value)
  {
    AddressNamesPlain();
    AddressFieldsInOrder(t, el, path);
    ReadOne(t, index, names, "StrtNm");
    ReadOne(t, index, names, "BldgNb");
    ReadOne(t, index, names, "PstCd");
    ReadOne(t, index, names, "TwnNm");
    ReadOne(t, index, names, "Ctry");
    NavigateTx(t, index, names);
  }

  lemma AddressReads(t: Tree, index: nat, slot: Slot)
    requires IsDocument(t) && index < |TxElements(t)|
    ensures var a := AddressOf(MapTransaction(t, TxElements(t)[index], index), slot);
      a.Some? ==> AddressReadAtItsPath(t, a.value)
  {
    SlotPlain(slot);
    SlotAddress(t, TxElements(t)[index], index, slot);
    var el := AddressNode(t, TxElements(t)[index], slot);
    SlotChain(t, TxElements(t)[index], slot);
    if el.Some? {
      AddressElementReads(t, index, SlotNames(slot), el.value, SlotPath(index, slot));
    }
  }

  lemma PartyReads(t: Tree, index: nat, a: string)
    requires IsDocument(t) && index < |TxElements(t)| && Plain(a)
    ensures PartyReadAtItsPath(t, MapParty(t, Child(t, Some(TxElements(t)[index]), a), TxPath(index) + ("/" + a)))
  {
    PartyNamesPlain();
    OnePlain(a);
    PathOfOne(a);
    ChainOne(t, Some(TxElements(t)[index]), a);
    ReadOne(t, index, [a], "Nm");
  }

  lemma AccountReads(t: Tree, index: nat, a: string)
    requires IsDocument(t) && index < |TxElements(t)| && Plain(a)
    ensures AccountReadAtItsPath(t, MapAccount(t, Child(t, Some(TxElements(t)[index]), a), TxPath(index) + ("/" + a)))
  {
    AccountNamesPlain();
    OnePlain(a);
    PathOfOne(a);
    ChainOne(t, Some(TxElements(t)[index]), a);
    ReadTwo(t, index, [a], "Id", "IBAN");
    ReadThree(t, index, [a], "Id", "Othr", "Id");
    ReadOne(t, index, [a], "Nm");
  }

  lemma AgentReads(t: Tree, index: nat, a: string)
    requires IsDocument(t) && index < |TxElements(t)| && Plain(a)
    ensures AgentReadAtItsPath(t, MapAgent(t, Child(t, Some(TxElements(t)[index]), a), TxPath(index) + ("/" + a)))
  {
    AgentNamesPlain();
    OnePlain(a);
    PathOfOne(a);
    ChainOne(t, Some(TxElements(t)[index]), a);
    ReadTwo(t, index, [a], "FinInstnId", "BICFI");
    ReadThree(t, index, [a], "FinInstnId", "ClrSysMmbId", "MmbId");
    ReadTwo(t, index, [a], "FinInstnId", "Nm");
  }

  lemma IdentifierReads(t: Tree, index: nat)
    requires IsDocument(t) && index < |TxElements(t)|
    ensures var tx := MapTransaction(t, TxElements(t)[index], index);
      && ReadAt(t, tx.sourcePath, ["PmtId", "InstrId"], tx.instructionId)
      && ReadAt(t, tx.sourcePath, ["PmtId", "EndToEndId"], tx.endToEndId)
      && ReadAt(t, tx.sourcePath, ["PmtId", "TxId"], tx.transactionId)
  {
    IdentifierNamesPlain();
    assert TxPath(index) + PathOf([]) == TxPath(index);
    ReadTwo(t, index, [], "PmtId", "InstrId");
    ReadTwo(t, index, [], "PmtId", "EndToEndId");
    ReadTwo(t, index, [], "PmtId", "TxId");
  }

  lemma RemittanceReads(t: Tree, index: nat)
    requires IsDocument(t) && index < |TxElements(t)|
    ensures RemittanceReadAtItsPath(t, MapTransaction(t, TxElements(t)[index], index).remittance)
  {
    assert Plain("RmtInf") && "/RmtInf" == "/" + "RmtInf";
    OnePlain("RmtInf");
    PathOfOne("RmtInf");
    NavigateTx(t, index, ["RmtInf"]);
    ChainOne(t, Some(TxElements(t)[index]), "RmtInf");
  }

  lemma AmountReads(t: Tree, index: nat)
    requires IsDocument(t) && index < |TxElements(t)|
    ensures var tx := MapTransaction(t, TxElements(t)[index], index); AmountReadAt(t, tx.sourcePath, tx.amount)
  {
    assert Plain("Amt") && Plain("InstdAmt");
    TwoPlain("Amt", "InstdAmt");
    NavigateTx(t, index, ["Amt", "InstdAmt"]);
    ChainTwo(t, Some(TxElements(t)[index]), "Amt", "InstdAmt");
  }

  lemma PartiesRead(t: Tree, index: nat)
    requires IsDocument(t) && index < |TxElements(t)|
    ensures var tx := MapTransaction(t, TxElements(t)[index], index);
      && PartyReadAtItsPath(t, tx.debtor) && PartyReadAtItsPath(t, tx.creditor)
      && AgentReadAtItsPath(t, tx.debtorAgent) && AgentReadAtItsPath(t, tx.creditorAgent)
  {
    PartyNamesPlain();
    PrintedLiterals();
    PartyReads(t, index, "Dbtr");
    PartyReads(t, index, "Cdtr");
    AgentReads(t, index, "DbtrAgt");
    AgentReads(t, index, "CdtrAgt");
  }

  lemma AccountsRead(t: Tree, index: nat)
    requires IsDocument(t) && index < |TxElements(t)|
    ensures var tx := MapTransaction(t, TxElements(t)[index], index);
      AccountReadAtItsPath(t, tx.debtorAccount) && AccountReadAtItsPath(t, tx.creditorAccount)
  {
    AccountNamesPlain();
    assert "/DbtrAcct" == "/" + "DbtrAcct" && "/CdtrAcct" == "/" + "CdtrAcct";
    AccountReads(t, index, "DbtrAcct");
    AccountReads(t, index, "CdtrAcct");
  }

  /** Every identifier, name, account and address field, address line, remittance line and amount the
      adapter reports is what is found by navigating the source path the adapter printed for it. */
  lemma ReadAtPrintedPaths(t: Tree, index: nat)
    requires IsDocument(t) && index < |TxElements(t)|
    ensures var tx := MapMessage(t).transactions[index];
      && ReadAt(t, tx.sourcePath, ["PmtId", "InstrId"], tx.instructionId)
      && ReadAt(t, tx.sourcePath, ["PmtId", "EndToEndId"], tx.endToEndId)
      && ReadAt(t, tx.sourcePath, ["PmtId", "TxId"], tx.transactionId)
      && AmountReadAt(t, tx.sourcePath, tx.amount) && RemittanceReadAtItsPath(t, tx.remittance)
      && PartyReadAtItsPath(t, tx.debtor) && PartyReadAtItsPath(t, tx.creditor)
      && AccountReadAtItsPath(t, tx.debtorAccount) && AccountReadAtItsPath(t, tx.creditorAccount)
      && AgentReadAtItsPath(t, tx.debtorAgent) && AgentReadAtItsPath(t, tx.creditorAgent)
      && (forall slot :: AddressOf(tx, slot).Some? ==> AddressReadAtItsPath(t, AddressOf(tx, slot).value))
  {
    var tx := MapMessage(t).transactions[index];
    assert tx == MapTransaction(t, TxElements(t)[index], index);
    IdentifierReads(t, index);
    AmountReads(t, index);
    RemittanceReads(t, index);
    PartiesRead(t, index);
    AccountsRead(t, index);
    forall slot ensures AddressOf(tx, slot).Some? ==> AddressReadAtItsPath(t, AddressOf(tx, slot).value) {
      AddressReads(t, index, slot);
    }
  }
}
