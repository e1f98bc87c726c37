// Declarative mapping: target paths, the setters that write them, and the definitions that may be
// published.
module Mapping {
  import opened Strings
  import opened Sorting
  import opened Selectors
  import XmlTree

  // ----- the canonical transaction as the mapper fills it -----

  datatype Amount = Amount(amountMinor: int, currency: string)

  datatype Address = Address(
    streetName: Option<string>, buildingNumber: Option<string>, postcode: Option<string>,
    townName: Option<string>, country: Option<string>, addressLines: seq<string>,
    sourcePath: Option<string>, originalFields: map<string, string>)

  datatype Party = Party(name: Option<string>, postalAddress: Option<Address>)

  datatype Account = Account(iban: Option<string>, name: Option<string>, otherIdentification: Option<string>)

  datatype Agent = Agent(bic: Option<string>, name: Option<string>)

  datatype Tx = Tx(
    instructionId: Option<string>, endToEndId: Option<string>, transactionId: Option<string>,
    amount: Option<Amount>, debtor: Option<Party>, creditor: Option<Party>,
    debtorAccount: Option<Account>, creditorAccount: Option<Account>,
    debtorAgent: Option<Agent>, creditorAgent: Option<Agent>,
    remittance: Option<seq<string>>)

  const NEW_ADDRESS := Address(None, None, None, None, None, [], None, map[])
  const NEW_PARTY := Party(None, None)
  const NEW_ACCOUNT := Account(None, None, None)
  const NEW_AGENT := Agent(None, None)
  const NEW_AMOUNT := Amount(0, "EUR")
  const NEW_TX := Tx(None, None, None, None, None, None, None, None, None, None, None)

  function Or<T>(a: Option<T>, b: T): T { if a.Some? then a.value else b }

  // ----- source values -----

  /** Named transforms, `str(value)`, `_to_minor(value)` and `str.upper`. */
  datatype Conversion = Conversion(
    transform: (string, Json) -> Json, text: Json -> string, minor: Json -> int, upper: string -> string)

  function Currency(c: Conversion, v: Json): string {
    var s := c.text(v);
    c.upper(if |s| <= 3 then s else s[..3])
  }

  // ----- the setters -----

  function SetAddress(c: Conversion, a: Address, seg: seq<string>, v: Json, path: string): Address {
    if seg == [] then a
    else
      var b, s := a.(sourcePath := Some(path)), Some(c.text(v));
      if seg[0] == "street_name" then b.(streetName := s)
      else if seg[0] == "building_number" then b.(buildingNumber := s)
      else if seg[0] == "postcode" then b.(postcode := s)
      else if seg[0] == "town_name" then b.(townName := s)
      else if seg[0] == "country" then b.(country := s, originalFields := b.originalFields["Ctry" := c.text(v)])
      else if seg[0] == "address_lines" then b.(addressLines := b.addressLines + [c.text(v)])
      else b
  }

  function SetParty(c: Conversion, p: Option<Party>, seg: seq<string>, v: Json, path: string): Option<Party> {
    if seg == [] then p
    else
      var party := Or(p, NEW_PARTY);
      if seg[0] == "name" then Some(party.(name := Some(c.text(v))))
      else if seg[0] == "postal_address" then
        Some(party.(postalAddress := Some(SetAddress(c, Or(party.postalAddress, NEW_ADDRESS), seg[1..], v, path))))
      else Some(party)
  }

  function SetAccount(c: Conversion, a: Option<Account>, seg: seq<string>, v: Json): Option<Account> {
    var account := Or(a, NEW_ACCOUNT);
    if seg == [] then Some(account)
    else if seg[0] == "iban" then Some(account.(iban := Some(c.text(v))))
    else if seg[0] == "name" then Some(account.(name := Some(c.text(v))))
    else if seg[0] == "other_identification" then Some(account.(otherIdentification := Some(c.text(v))))
    else Some(account)
  }

  function SetAgent(c: Conversion, a: Option<Agent>, seg: seq<string>, v: Json): Option<Agent> {
    var agent := Or(a, NEW_AGENT);
    if seg == [] then Some(agent)
    else if seg[0] == "bic" then Some(agent.(bic := Some(c.text(v))))
    else if seg[0] == "name" then Some(agent.(name := Some(c.text(v))))
    else Some(agent)
  }

  function SetAmount(c: Conversion, a: Option<Amount>, field: string, v: Json): Option<Amount> {
    var amount := Or(a, NEW_AMOUNT);
    if field == "amount_minor" then Some(amount.(amountMinor := c.minor(v)))
    else if field == "currency" then Some(amount.(currency := Currency(c, v)))
    else Some(amount)
  }

  function SetRemittance(c: Conversion, lines: Option<seq<string>>, seg: seq<string>, v: Json): Option<seq<string>> {
    if seg != [] && seg[0] == "unstructured" then Some(Or(lines, []) + [c.text(v)]) else Some(Or(lines, []))
  }

  function SetSegments(c: Conversion, tx: Tx, seg: seq<string>, v: Json, prefix: string): Tx {
    if seg == [] then tx
    else if seg[0] == "amount" && |seg| >= 2 then tx.(amount := SetAmount(c, tx.amount, seg[1], v))
    else if seg[0] == "instruction_id" then tx.(instructionId := Some(c.text(v)))
    else if seg[0] == "end_to_end_id" then tx.(endToEndId := Some(c.text(v)))
    else if seg[0] == "transaction_id" then tx.(transactionId := Some(c.text(v)))
    else if seg[0] == "debtor" then tx.(debtor := SetParty(c, tx.debtor, seg[1..], v, prefix + "/Dbtr/PstlAdr"))
    else if seg[0] == "creditor" then tx.(creditor := SetParty(c, tx.creditor, seg[1..], v, prefix + "/Cdtr/PstlAdr"))
    else if seg[0] == "debtor_account" then tx.(debtorAccount := SetAccount(c, tx.debtorAccount, seg[1..], v))
    else if seg[0] == "creditor_account" then tx.(creditorAccount := SetAccount(c, tx.creditorAccount, seg[1..], v))
    else if seg[0] == "debtor_agent" then tx.(debtorAgent := SetAgent(c, tx.debtorAgent, seg[1..], v))
    else if seg[0] == "creditor_agent" then tx.(creditorAgent := SetAgent(c, tx.creditorAgent, seg[1..], v))
    else if seg[0] == "remittance" then tx.(remittance := SetRemittance(c, tx.remittance, seg[1..], v))
    else tx
  }

  /** `[s for s in target.split(".") if s]` */
  function Dots(target: string): seq<string> { Filter(XmlTree.NonEmpty(), Split(target, '.')) }

  /** `_set_target` */
  function SetTarget(c: Conversion, tx: Tx, target: string, v: Json, prefix: string): Tx {
    SetSegments(c, tx, Dots(target), v, prefix)
  }

  // ----- mapping one record -----

  datatype FieldMapping = FieldMapping(
    source: string, target: string, required: bool, transforms: seq<string>, default: Option<string>)

  predicate Missing(v: Json) { v == Null || v == Scalar("") }

  /** `_get_value` of a JSON or CSV record */
  function GetValue(record: Json, source: string): Json {
    if !record.Object? then Null
    else
      var values := if source != "" && source[0] == '$' then Resolve(record, source) else Member(record.fields, source);
      if values == [] then Null else values[0]
  }

  function Transformed(c: Conversion, v: Json, names: seq<string>): Json {
    if names == [] then v else c.transform(names[|names| - 1], Transformed(c, v, names[..|names| - 1]))
  }

  /** The value a field contributes to a record's transaction, if any. */
  function FieldValue(c: Conversion, record: Json, fm: FieldMapping): Option<Json> {
    var v := GetValue(record, fm.source);
    if !Missing(v) then Some(Transformed(c, v, fm.transforms))
    else if fm.required || fm.default.None? then None
    else Some(Transformed(c, Scalar(fm.default.value), fm.transforms))
  }

  function MapFields(c: Conversion, record: Json, fields: seq<FieldMapping>, prefix: string): Tx {
    if fields == [] then NEW_TX
    else
      var fm := fields[|fields| - 1];
      var tx := MapFields(c, record, fields[..|fields| - 1], prefix);
      var v := FieldValue(c, record, fm);
      if v.Some? then SetTarget(c, tx, fm.target, v.value, prefix) else tx
  }

  /** The targets of the required fields that a record lacks, in order. */
  function MissingRequired(record: Json, fields: seq<FieldMapping>): seq<string> {
    if fields == [] then []
    else
      var fm := fields[|fields| - 1];
      MissingRequired(record, fields[..|fields| - 1])
      + if fm.required && Missing(GetValue(record, fm.source)) then [fm.target] else []
  }

  function Prefix(i: nat): string { "transactions[" + Decimal(i) + "]" }

  /** One transaction a record. */
  function MapAll(c: Conversion, records: seq<Json>, fields: seq<FieldMapping>): (r: seq<Tx>)
    ensures |r| == |records|
  {
    if records == [] then []
    else
      var n := |records| - 1;
      MapAll(c, records[..n], fields) + [MapFields(c, records[n], fields, Prefix(n))]
  }

  function AllMissing(records: seq<Json>, fields: seq<FieldMapping>): seq<string> {
    if records == [] then []
    else AllMissing(records[..|records| - 1], fields) + MissingRequired(records[|records| - 1], fields)
  }

  // ----- reading a field by its path -----

  /** What a rule path can reach. */
  datatype Node =
    | Absent | TextNode(text: string) | NumberNode(number: int) | LinesNode(lines: seq<string>)
    | TxNode(tx: Tx) | AmountNode(amount: Amount) | PartyNode(party: Party) | AddressNode(address: Address)
    | AccountNode(account: Account) | AgentNode(agent: Agent) | RemittanceNode(unstructured: seq<string>)

  function TextNodeOf(s: Option<string>): Node { if s.Some? then TextNode(s.value) else Absent }
  function PartyNodeOf(p: Option<Party>): Node { if p.Some? then PartyNode(p.value) else Absent }
  function AccountNodeOf(a: Option<Account>): Node { if a.Some? then AccountNode(a.value) else Absent }
  function AgentNodeOf(a: Option<Agent>): Node { if a.Some? then AgentNode(a.value) else Absent }

  function TxAttr(tx: Tx, name: string): Node {
    if name == "instruction_id" then TextNodeOf(tx.instructionId)
    else if name == "end_to_end_id" then TextNodeOf(tx.endToEndId)
    else if name == "transaction_id" then TextNodeOf(tx.transactionId)
    else if name == "amount" then if tx.amount.Some? then AmountNode(tx.amount.value) else Absent
    else if name == "debtor" then PartyNodeOf(tx.debtor)
    else if name == "creditor" then PartyNodeOf(tx.creditor)
    else if name == "debtor_account" then AccountNodeOf(tx.debtorAccount)
    else if name == "creditor_account" then AccountNodeOf(tx.creditorAccount)
    else if name == "debtor_agent" then AgentNodeOf(tx.debtorAgent)
    else if name == "creditor_agent" then AgentNodeOf(tx.creditorAgent)
    else if name == "remittance" then if tx.remittance.Some? then RemittanceNode(tx.remittance.value) else Absent
    else Absent
  }

  function AddressAttr(a: Address, name: string): Node {
    if name == "street_name" then TextNodeOf(a.streetName)
    else if name == "building_number" then TextNodeOf(a.buildingNumber)
    else if name == "postcode" then TextNodeOf(a.postcode)
    else if name == "town_name" then TextNodeOf(a.townName)
    else if name == "country" then TextNodeOf(a.country)
    else if name == "address_lines" then LinesNode(a.addressLines)
    else if name == "source_path" then TextNodeOf(a.sourcePath)
    else Absent
  }

  /** `_get_attr`, for the attributes the mapper writes */
  function Attr(node: Node, name: string): Node {
    match node
    case TxNode(tx) => TxAttr(tx, name)
    case AmountNode(a) =>
      if name == "amount_minor" then NumberNode(a.amountMinor)
      else if name == "currency" then TextNode(a.currency)
      else Absent
    case PartyNode(p) =>
      if name == "name" then TextNodeOf(p.name)
      else if name == "postal_address" then if p.postalAddress.Some? then AddressNode(p.postalAddress.value) else Absent
      else Absent
    case AddressNode(a) => AddressAttr(a, name)
    case AccountNode(a) =>
      if name == "iban" then TextNodeOf(a.iban)
      else if name == "name" then TextNodeOf(a.name)
      else if name == "other_identification" then TextNodeOf(a.otherIdentification)
      else Absent
    case AgentNode(a) =>
      if name == "bic" then TextNodeOf(a.bic)
      else if name == "name" then TextNodeOf(a.name)
      else Absent
    case RemittanceNode(lines) => if name == "unstructured" then LinesNode(lines) else Absent
    case _ => Absent
  }

  function Follow(node: Node, seg: seq<string>): Node
    decreases |seg|
  {
    if seg == [] || node.Absent? then node else Follow(Attr(node, seg[0]), seg[1..])
  }

  function ResolveField(tx: Tx, path: string): Node { Follow(TxNode(tx), Dots(path)) }

  /** `resolve_field` */
  method ResolveFieldByPath(tx: Tx, path: string) returns (node: Node)
    ensures node == ResolveField(tx, path)
  {
    var seg := Dots(path);
    node := TxNode(tx);
    for i := 0 to |seg|
      invariant Follow(node, seg[i..]) == ResolveField(tx, path)
    {
      if node.Absent? {
        return Absent;
      }
      assert seg[i..][0] == seg[i] && seg[i..][1..] == seg[i + 1..];
      node := Attr(node, seg[i]);
    }
    assert seg[|seg|..] == [];
  }
}
