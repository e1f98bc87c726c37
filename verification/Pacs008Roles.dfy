// Which element each field of the canonical message comes from: every role is read at its own literal
// path, and is absent exactly when that path leads nowhere.
module Pacs008Roles {
  import opened Strings
  import opened Sorting
  import opened XmlTree
  import opened Pacs008

  // ----- what is read at a path -----

  /** An object is reported exactly when its path leads to an element. */
  predicate Exists(t: Tree, path: string, reported: bool) {
    WellFormedPath(path) && (reported <==> Navigate(t, path).Some?)
  }

  /** The five fields that carry text below the path, and no other. */
  ghost predicate FieldsAt(t: Tree, path: string, fields: map<string, string>) {
    && (forall name :: name in fields ==> name in ["StrtNm", "BldgNb", "PstCd", "TwnNm", "Ctry"])
    && ReadAt(t, path, ["StrtNm"], Get(fields, "StrtNm")) && ReadAt(t, path, ["BldgNb"], Get(fields, "BldgNb"))
    && ReadAt(t, path, ["PstCd"], Get(fields, "PstCd")) && ReadAt(t, path, ["TwnNm"], Get(fields, "TwnNm"))
    && ReadAt(t, path, ["Ctry"], Get(fields, "Ctry"))
  }

  ghost predicate AddressAt(t: Tree, path: string, a: Option<PostalAddress>) {
    && Exists(t, path, a.Some?)
    && (a.Some? ==> a.value.sourcePath == path && AddressReadAtItsPath(t, a.value) && FieldsAt(t, path, a.value.originalFields))
  }

  ghost predicate PartyAt(t: Tree, path: string, p: Option<Party>) {
    && Exists(t, path, p.Some?)
    && (p.Some? ==> p.value.sourcePath == path && PartyReadAtItsPath(t, p) && AddressAt(t, path + "/PstlAdr", p.value.address))
  }

  predicate AccountAt(t: Tree, path: string, a: Option<Account>) {
    Exists(t, path, a.Some?) && (a.Some? ==> a.value.sourcePath == path && AccountReadAtItsPath(t, a))
  }

  ghost predicate AgentAt(t: Tree, path: string, a: Option<Agent>) {
    && Exists(t, path, a.Some?)
    && (a.Some? ==>
          a.value.sourcePath == path && AgentReadAtItsPath(t, a) && AddressAt(t, path + "/FinInstnId/PstlAdr", a.value.address))
  }

  predicate RemittanceAt(t: Tree, path: string, r: Option<Remittance>) {
    Exists(t, path, r.Some?) && (r.Some? ==> r.value.sourcePath == path && RemittanceReadAtItsPath(t, r))
  }

  /** The amount's text without surrounding blanks, `0` when there is none, and its currency, EUR by default. */
  predicate AmountAt(t: Tree, path: string, amount: Option<Amount>) {
    && Exists(t, path, amount.Some?)
    && (amount.Some? ==>
          var el := Navigate(t, path).value;
          var text := TextOf(t, el);
          var ccy := if el in t.attrs then Get(t.attrs[el], "Ccy") else None;
          && amount.value.text == (if text.Some? && text.value != "" then Strip(text.value) else "0")
          && amount.value.currency == (if ccy.Some? && ccy.value != "" then ccy.value else "EUR"))
  }

  // ----- navigating a literal path -----

  lemma TxPathIs(index: nat)
    ensures TxPath(index) == "/Document/FIToFICstmrCdtTrf/CdtTrfTxInf[" + Decimal(index) + "]"
  {
    assert "/Document" + "/FIToFICstmrCdtTrf" + "/" + "CdtTrfTxInf[" == "/Document/FIToFICstmrCdtTrf/CdtTrfTxInf[";
    Assoc("/Document" + "/FIToFICstmrCdtTrf" + "/", "CdtTrfTxInf[" + Decimal(index), "]");
    Assoc("/Document" + "/FIToFICstmrCdtTrf" + "/", "CdtTrfTxInf[", Decimal(index));
  }

  /** The path of a child of the transaction. */
  lemma RolePath(t: Tree, index: nat, role: string)
    requires IsDocument(t) && index < |TxElements(t)| && Plain(role)
    ensures WellFormedPath(TxPath(index) + ("/" + role))
    ensures Navigate(t, TxPath(index) + ("/" + role)) == Child(t, Some(TxElements(t)[index]), role)
  {
    OnePlain(role);
    PathOfOne(role);
    NavigateTx(t, index, [role]);
    ChainOne(t, Some(TxElements(t)[index]), role);
  }

  lemma FieldNames(t: Tree, el: Id, names: seq<string>, name: string)
    requires name in OriginalFields(t, el, names)
    ensures name in names
  {
    OriginalFieldsAt(t, el, names, name);
  }

  lemma FieldValues(t: Tree, index: nat, names: seq<string>, el: Id)
    requires IsDocument(t) && index < |TxElements(t)| && AllPlain(names)
    requires Chain(t, Some(TxElements(t)[index]), names) == Some(el)
    ensures FieldsAt(t, TxPath(index) + PathOf(names), OriginalFields(t, el, ADDRESS_FIELDS))
  {
    var fields := OriginalFields(t, el, ADDRESS_FIELDS);
    forall name | name in fields ensures name in ["StrtNm", "BldgNb", "PstCd", "TwnNm", "Ctry"] {
      FieldNames(t, el, ADDRESS_FIELDS, name);
    }
    AddressNamesPlain();
    OriginalFieldsAt(t, el, ADDRESS_FIELDS, "StrtNm");
    OriginalFieldsAt(t, el, ADDRESS_FIELDS, "BldgNb");
    OriginalFieldsAt(t, el, ADDRESS_FIELDS, "PstCd");
    OriginalFieldsAt(t, el, ADDRESS_FIELDS, "TwnNm");
    OriginalFieldsAt(t, el, ADDRESS_FIELDS, "Ctry");
    ReadOne(t, index, names, "StrtNm");
    ReadOne(t, index, names, "BldgNb");
    ReadOne(t, index, names, "PstCd");
    ReadOne(t, index, names, "TwnNm");
    ReadOne(t, index, names, "Ctry");
  }

  /** An address mapped from the element at these steps below a transaction. */
  lemma AddressFound(t: Tree, index: nat, names: seq<string>)
    requires IsDocument(t) && index < |TxElements(t)| && AllPlain(names)
    ensures var path := TxPath(index) + PathOf(names);
      AddressAt(t, path, MapAddress(t, Chain(t, Some(TxElements(t)[index]), names), path))
  {
    var el := Chain(t, Some(TxElements(t)[index]), names);
    NavigateTx(t, index, names);
    if el.Some? {
      AddressElementReads(t, index, names, el.value, TxPath(index) + PathOf(names));
      FieldValues(t, index, names, el.value);
    }
  }

  lemma PartyFound(t: Tree, index: nat, role: string)
    requires IsDocument(t) && index < |TxElements(t)| && Plain(role) && Plain("PstlAdr")
    ensures var path := TxPath(index) + ("/" + role);
      PartyAt(t, path, MapParty(t, Child(t, Some(TxElements(t)[index]), role), path))
  {
    RolePath(t, index, role);
    PartyReads(t, index, role);
    PartyAddressPath(TxPath(index), role);
    TwoPlain(role, "PstlAdr");
    AddressFound(t, index, [role, "PstlAdr"]);
    ChainTwo(t, Some(TxElements(t)[index]), role, "PstlAdr");
  }

  lemma AgentFound(t: Tree, index: nat, role: string)
    requires IsDocument(t) && index < |TxElements(t)| && Plain(role) && Plain("FinInstnId") && Plain("PstlAdr")
    ensures var path := TxPath(index) + ("/" + role);
      AgentAt(t, path, MapAgent(t, Child(t, Some(TxElements(t)[index]), role), path))
  {
    RolePath(t, index, role);
    AgentReads(t, index, role);
    AgentAddressPath(TxPath(index), role);
    ThreePlain(role, "FinInstnId", "PstlAdr");
    AddressFound(t, index, [role, "FinInstnId", "PstlAdr"]);
    ChainThree(t, Some(TxElements(t)[index]), role, "FinInstnId", "PstlAdr");
  }

  lemma AccountFound(t: Tree, index: nat, role: string)
    requires IsDocument(t) && index < |TxElements(t)| && Plain(role)
    ensures var path := TxPath(index) + ("/" + role);
      AccountAt(t, path, MapAccount(t, Child(t, Some(TxElements(t)[index]), role), path))
  {
    RolePath(t, index, role);
    AccountReads(t, index, role);
  }

  // ----- the roles of a transaction -----

  lemma PartyRoles(t: Tree, index: nat)
    requires IsDocument(t) && index < |TxElements(t)|
    ensures var tx, path := MapTransaction(t, TxElements(t)[index], index), TxPath(index);
      && PartyAt(t, path + "/Dbtr", tx.debtor) && PartyAt(t, path + "/Cdtr", tx.creditor)
      && AgentAt(t, path + "/DbtrAgt", tx.debtorAgent) && AgentAt(t, path + "/CdtrAgt", tx.creditorAgent)
  {
    PartyNamesPlain();
    AgentNamesPlain();
    PrintedLiterals();
    assert Plain("PstlAdr");
    PartyFound(t, index, "Dbtr");
    PartyFound(t, index, "Cdtr");
    AgentFound(t, index, "DbtrAgt");
    AgentFound(t, index, "CdtrAgt");
  }

  lemma AccountRoles(t: Tree, index: nat)
    requires IsDocument(t) && index < |TxElements(t)|
    ensures var tx, path := MapTransaction(t, TxElements(t)[index], index), TxPath(index);
      && AccountAt(t, path + "/DbtrAcct", tx.debtorAccount) && AccountAt(t, path + "/CdtrAcct", tx.creditorAccount)
  {
    AccountNamesPlain();
    assert "/DbtrAcct" == "/" + "DbtrAcct" && "/CdtrAcct" == "/" + "CdtrAcct";
    AccountFound(t, index, "DbtrAcct");
    AccountFound(t, index, "CdtrAcct");
  }

  lemma RemittanceRole(t: Tree, index: nat)
    requires IsDocument(t) && index < |TxElements(t)|
    ensures RemittanceAt(t, TxPath(index) + "/RmtInf", MapTransaction(t, TxElements(t)[index], index).remittance)
  {
    assert Plain("RmtInf") && "/RmtInf" == "/" + "RmtInf";
    RolePath(t, index, "RmtInf");
    RemittanceReads(t, index);
  }

  lemma TwoSteps(base: string, a: string, b: string)
    ensures base + PathOf([a, b]) == base + ("/" + a + "/" + b)
  {
    assert [a, b][1..] == [b];
    PathOfOne(b);
  }

  lemma AmountRole(t: Tree, index: nat)
    requires IsDocument(t) && index < |TxElements(t)|
    ensures AmountAt(t, TxPath(index) + "/Amt/InstdAmt", MapTransaction(t, TxElements(t)[index], index).amount)
  {
    AmountReads(t, index);
    AmountPath(TxPath(index));
    var path := TxPath(index) + "/Amt/InstdAmt";
    AmountFound(t, path, Navigate(t, path));
  }

  lemma AmountPath(base: string)
    ensures base + PathOf(["Amt", "InstdAmt"]) == base + "/Amt/InstdAmt"
  {
    TwoSteps(base, "Amt", "InstdAmt");
    assert "/" + "Amt" + "/" + "InstdAmt" == "/Amt/InstdAmt";
  }

  lemma AmountFound(t: Tree, path: string, el: Option<Id>)
    requires WellFormedPath(path) && Navigate(t, path) == el
    ensures AmountAt(t, path, MapAmount(t, el))
  {
  }

  // ----- the message -----

  lemma RootSteps(names: seq<string>)
    requires AllPlain(names)
    ensures WellFormedPath("/Document" + PathOf(names)) && Segments("/Document" + PathOf(names)) == ["Document"] + names
  {
    FixedNames();
    OnePlain("Document");
    PathOfOne("Document");
    assert "/" + "Document" == "/Document";
    PlainAppend(["Document"], names);
    PathOfAppend(["Document"], names);
    PlainSteps(["Document"] + names);
    SegmentsOfPath(["Document"] + names);
  }

  lemma NavigateRoot(t: Tree, names: seq<string>)
    requires IsDocument(t) && AllPlain(names)
    ensures WellFormedPath("/Document" + PathOf(names))
    ensures Navigate(t, "/Document" + PathOf(names)) == Chain(t, Some(t.root), names)
  {
    RootSteps(names);
    FixedNames();
    PlainStepParses("Document");
    PlainSteps(names);
    assert (["Document"] + names)[1..] == names;
    DescendChain(t, t.root, names);
  }

  lemma HeaderField(t: Tree, name: string)
    requires IsDocument(t) && Plain(name) && Plain("FIToFICstmrCdtTrf") && Plain("GrpHdr")
    ensures var path := "/Document/FIToFICstmrCdtTrf/GrpHdr" + ("/" + name);
      WellFormedPath(path) && Text(t, Navigate(t, path)) == Text(t, Child(t, Child(t, MessageRoot(t), "GrpHdr"), name))
  {
    ThreePlain("FIToFICstmrCdtTrf", "GrpHdr", name);
    NavigateRoot(t, ["FIToFICstmrCdtTrf", "GrpHdr", name]);
    PathOfThree("FIToFICstmrCdtTrf", "GrpHdr", name);
    ChainThree(t, Some(t.root), "FIToFICstmrCdtTrf", "GrpHdr", name);
    HeaderPath(name);
  }

  lemma HeaderPath(name: string)
    ensures "/Document" + ("/" + "FIToFICstmrCdtTrf" + ("/" + "GrpHdr") + "/" + name)
      == "/Document/FIToFICstmrCdtTrf/GrpHdr" + ("/" + name)
  {
    assert "/" + "FIToFICstmrCdtTrf" + ("/" + "GrpHdr") == "/FIToFICstmrCdtTrf/GrpHdr";
    assert "/Document" + "/FIToFICstmrCdtTrf/GrpHdr" == "/Document/FIToFICstmrCdtTrf/GrpHdr";
    Assoc("/Document", "/FIToFICstmrCdtTrf/GrpHdr", "/" + name);
    Assoc("/FIToFICstmrCdtTrf/GrpHdr", "/", name);
  }

  /** The header fields are the texts at their literal paths. */
  lemma HeaderReads(t: Tree)
    requires IsDocument(t)
    ensures var id, created := "/Document/FIToFICstmrCdtTrf/GrpHdr/MsgId", "/Document/FIToFICstmrCdtTrf/GrpHdr/CreDtTm";
      && WellFormedPath(id) && MapMessage(t).messageId == Text(t, Navigate(t, id))
      && WellFormedPath(created) && MapMessage(t).created == Text(t, Navigate(t, created))
  {
    FixedNames();
    HeaderNamesPlain();
    HeaderField(t, "MsgId");
    HeaderField(t, "CreDtTm");
    MessageIdPath();
    CreatedPath();
  }

  lemma MessageIdPath()
    ensures "/Document/FIToFICstmrCdtTrf/GrpHdr" + ("/" + "MsgId") == "/Document/FIToFICstmrCdtTrf/GrpHdr/MsgId"
  {
  }

  lemma CreatedPath()
    ensures "/Document/FIToFICstmrCdtTrf/GrpHdr" + ("/" + "CreDtTm") == "/Document/FIToFICstmrCdtTrf/GrpHdr/CreDtTm"
  {
  }

  lemma HeaderNamesPlain()
    ensures Plain("GrpHdr") && Plain("MsgId") && Plain("CreDtTm")
  {
  }

  /** A transaction path leads to an element exactly for the indexes of the transactions. */
  lemma TxFound(t: Tree, index: nat)
    requires IsDocument(t)
    ensures WellFormedPath(TxPath(index))
    ensures Navigate(t, TxPath(index)).Some? <==> index < |TxElements(t)|
  {
    TxStepsWellFormed(index, []);
    assert TxSteps(index) + [] == TxSteps(index);
    TxPathSteps(index);
    SegmentsOfPath(TxSteps(index));
    TxDescent(t, index);
  }

  lemma TxDescent(t: Tree, index: nat)
    requires IsDocument(t) && WellFormedSteps(TxSteps(index))
    ensures Resolve(t, TxSteps(index)).Some? <==> index < |TxElements(t)|
  {
    FixedNames();
    TxStepParses(index);
    PlainStepParses("Document");
    PlainStepParses("FIToFICstmrCdtTrf");
    ThirdStep(t, "Document", "FIToFICstmrCdtTrf", TxStep(index));
  }

  /** The third of three steps, the second of which names a first child. */
  lemma ThirdStep(t: Tree, a: string, b: string, c: string)
    requires WellFormedSteps([a, b, c]) && WellFormedStep(b) && WellFormedStep(c) && NameOf(t, t.root) == StepName(a)
    requires StepName(b) == b && StepIndex(b) == 0
    ensures Resolve(t, [a, b, c]).Some? <==> StepIndex(c) < |Children(t, Child(t, Some(t.root), b), StepName(c))|
  {
    assert [a, b, c][1..] == [b, c] && [b, c][1..] == [c];
    assert ChildByLocal(t, t.root, b) == Child(t, Some(t.root), b);
    var mid := Child(t, Some(t.root), b);
    if mid.Some? {
      LastStepOf(t, mid.value, c);
      assert [b, c] == [b] + [c];
      DescendFirst(t, t.root, b, [c], mid.value);
    }
  }

  lemma LastStepOf(t: Tree, node: Id, c: string)
    requires WellFormedStep(c)
    ensures WellFormedSteps([c]) && Descend(t, node, [c]) == ChildByLocal(t, node, c)
  {
    assert [c][1..] == [];
  }

  /** For every document: there is a transaction for each index whose path leads to an element and for no
      other, and each of its fields is what stands at that field's own literal path, absent exactly when
      nothing stands there. */
  lemma RolesReadAtLiteralPaths(t: Tree, index: nat)
    requires IsDocument(t)
    ensures var path := "/Document/FIToFICstmrCdtTrf/CdtTrfTxInf[" + Decimal(index) + "]";
      && Exists(t, path, index < |MapMessage(t).transactions|)
      && (index < |MapMessage(t).transactions| ==>
            var tx := MapMessage(t).transactions[index];
            && tx.sourcePath == path
            && ReadAt(t, path, ["PmtId", "InstrId"], tx.instructionId)
            && ReadAt(t, path, ["PmtId", "EndToEndId"], tx.endToEndId)
            && ReadAt(t, path, ["PmtId", "TxId"], tx.transactionId)
            && AmountAt(t, path + "/Amt/InstdAmt", tx.amount)
            && PartyAt(t, path + "/Dbtr", tx.debtor) && PartyAt(t, path + "/Cdtr", tx.creditor)
            && AccountAt(t, path + "/DbtrAcct", tx.debtorAccount) && AccountAt(t, path + "/CdtrAcct", tx.creditorAccount)
            && AgentAt(t, path + "/DbtrAgt", tx.debtorAgent) && AgentAt(t, path + "/CdtrAgt", tx.creditorAgent)
            && RemittanceAt(t, path + "/RmtInf", tx.remittance))
  {
    TxPathIs(index);
    TxFound(t, index);
    if index < |TxElements(t)| {
      assert MapMessage(t).transactions[index] == MapTransaction(t, TxElements(t)[index], index);
      IdentifierReads(t, index);
      AmountRole(t, index);
      PartyRoles(t, index);
      AccountRoles(t, index);
      RemittanceRole(t, index);
    }
  }
}
