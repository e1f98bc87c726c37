// What a validated mapping definition guarantees: every target is written by its own field alone,
// the order of the fields does not matter, and a rule path reads back what was mapped.
module MappingLaws {
  import opened Strings
  import opened Sorting
  import opened Selectors
  import opened Mapping
  import XmlTree

  // ----- the allowed targets -----

  datatype Side = Debtor | Creditor

  datatype AddressField = Street | Building | Postcode | Town | Country | Lines

  /** The canonical targets a definition may name. */
  datatype Target =
    | InstructionId | EndToEndId | TransactionId
    | AmountMinor | AmountCurrency
    | PartyName(side: Side) | PartyAddress(side: Side, field: AddressField)
    | AccountIban(side: Side) | AccountName(side: Side) | DebtorAccountOther
    | AgentBic(side: Side) | AgentName(side: Side)
    | Unstructured

  function PartyStep(side: Side): string { if side.Debtor? then "debtor" else "creditor" }
  function AccountStep(side: Side): string { if side.Debtor? then "debtor_account" else "creditor_account" }
  function AgentStep(side: Side): string { if side.Debtor? then "debtor_agent" else "creditor_agent" }

  function FieldStep(f: AddressField): string {
    match f
    case Street => "street_name"
    case Building => "building_number"
    case Postcode => "postcode"
    case Town => "town_name"
    case Country => "country"
    case Lines => "address_lines"
  }

  function Steps(t: Target): seq<string> {
    match t
    case InstructionId => ["instruction_id"]
    case EndToEndId => ["end_to_end_id"]
    case TransactionId => ["transaction_id"]
    case AmountMinor => ["amount", "amount_minor"]
    case AmountCurrency => ["amount", "currency"]
    case PartyName(side) => [PartyStep(side), "name"]
    case PartyAddress(side, field) => [PartyStep(side), "postal_address", FieldStep(field)]
    case AccountIban(side) => [AccountStep(side), "iban"]
    case AccountName(side) => [AccountStep(side), "name"]
    case DebtorAccountOther => ["debtor_account", "other_identification"]
    case AgentBic(side) => [AgentStep(side), "bic"]
    case AgentName(side) => [AgentStep(side), "name"]
    case Unstructured => ["remittance", "unstructured"]
  }

  /** The target as a definition spells it, such as `debtor.postal_address.country`. */
  function NameOf(t: Target): string { Join(Steps(t), ".") }

  // ----- target names and their segments -----

  predicate IsStep(s: string) { s != "" && '.' !in s }

  predicate AllSteps(steps: seq<string>) { steps == [] || (IsStep(steps[0]) && AllSteps(steps[1..])) }

  lemma {:induction false} SplitOfDotted(steps: seq<string>)
    requires steps != [] && AllSteps(steps)
    ensures Split(Join(steps, "."), '.') == steps
  {
    if |steps| == 1 {
      SplitPlain(steps[0], '.');
    } else {
      SplitOfDotted(steps[1..]);
      SplitCons(steps[0], '.', Join(steps[1..], "."));
    }
  }

  lemma {:induction false} KeepSteps(steps: seq<string>)
    requires AllSteps(steps)
    ensures Filter(XmlTree.NonEmpty(), steps) == steps
  {
    if steps != [] {
      KeepSteps(steps[1..]);
    }
  }

  lemma AddressSteps(f: AddressField)
    ensures IsStep(FieldStep(f)) && IsStep("postal_address")
  {
  }

  lemma OuterSteps(side: Side)
    ensures IsStep(PartyStep(side)) && IsStep(AccountStep(side)) && IsStep(AgentStep(side))
  {
  }

  lemma InnerSteps()
    ensures IsStep("name") && IsStep("iban") && IsStep("bic") && IsStep("other_identification")
  {
  }

  lemma PlainSteps()
    ensures IsStep("instruction_id") && IsStep("end_to_end_id") && IsStep("transaction_id")
  {
  }

  lemma MoneySteps()
    ensures IsStep("amount") && IsStep("amount_minor") && IsStep("currency") && IsStep("remittance") && IsStep("unstructured")
  {
  }

  lemma StepsOne(a: string)
    requires IsStep(a)
    ensures AllSteps([a])
  {
  }

  lemma StepsTwo(a: string, b: string)
    requires IsStep(a) && IsStep(b)
    ensures AllSteps([a, b])
  {
    assert [a, b][1..] == [b];
  }

  lemma StepsThree(a: string, b: string, d: string)
    requires IsStep(a) && IsStep(b) && IsStep(d)
    ensures AllSteps([a, b, d])
  {
    StepsTwo(b, d);
    assert [a, b, d][1..] == [b, d];
  }

  lemma StepsAreSteps(t: Target)
    ensures Steps(t) != [] && AllSteps(Steps(t))
  {
    PlainSteps();
    MoneySteps();
    InnerSteps();
    match t
    case InstructionId => StepsOne("instruction_id");
    case EndToEndId => StepsOne("end_to_end_id");
    case TransactionId => StepsOne("transaction_id");
    case AmountMinor => StepsTwo("amount", "amount_minor");
    case AmountCurrency => StepsTwo("amount", "currency");
    case PartyName(side) => OuterSteps(side); StepsTwo(PartyStep(side), "name");
    case PartyAddress(side, field) =>
      OuterSteps(side);
      AddressSteps(field);
      StepsThree(PartyStep(side), "postal_address", FieldStep(field));
    case AccountIban(side) => OuterSteps(side); StepsTwo(AccountStep(side), "iban");
    case AccountName(side) => OuterSteps(side); StepsTwo(AccountStep(side), "name");
    case DebtorAccountOther => OuterSteps(Debtor); StepsTwo("debtor_account", "other_identification");
    case AgentBic(side) => OuterSteps(side); StepsTwo(AgentStep(side), "bic");
    case AgentName(side) => OuterSteps(side); StepsTwo(AgentStep(side), "name");
    case Unstructured => StepsTwo("remittance", "unstructured");
  }

  /** Splitting an allowed target gives its segments. */
  lemma DotsOfName(t: Target)
    ensures Dots(NameOf(t)) == Steps(t)
  {
    StepsAreSteps(t);
    SplitOfDotted(Steps(t));
    KeepSteps(Steps(t));
  }

  // ----- the transaction a set of mapped values stands for -----

  type Values = map<Target, Json>

  function TextAt(c: Conversion, m: Values, t: Target): Option<string> {
    if t in m then Some(c.text(m[t])) else None
  }

  function LinesAt(c: Conversion, m: Values, t: Target): seq<string> {
    if t in m then [c.text(m[t])] else []
  }

  predicate AnyAddress(m: Values, side: Side) {
    || PartyAddress(side, Street) in m || PartyAddress(side, Building) in m || PartyAddress(side, Postcode) in m
    || PartyAddress(side, Town) in m || PartyAddress(side, Country) in m || PartyAddress(side, Lines) in m
  }

  function AddressPath(side: Side, prefix: string): string {
    if side.Debtor? then prefix + "/Dbtr/PstlAdr" else prefix + "/Cdtr/PstlAdr"
  }

  function AddressOf(c: Conversion, m: Values, side: Side, prefix: string): Option<Address> {
    if !AnyAddress(m, side) then None
    else Some(Address(
      TextAt(c, m, PartyAddress(side, Street)), TextAt(c, m, PartyAddress(side, Building)),
      TextAt(c, m, PartyAddress(side, Postcode)), TextAt(c, m, PartyAddress(side, Town)),
      TextAt(c, m, PartyAddress(side, Country)), LinesAt(c, m, PartyAddress(side, Lines)),
      Some(AddressPath(side, prefix)),
      if PartyAddress(side, Country) in m then map["Ctry" := c.text(m[PartyAddress(side, Country)])] else map[]))
  }

  function PartyOf(c: Conversion, m: Values, side: Side, prefix: string): Option<Party> {
    if PartyName(side) !in m && !AnyAddress(m, side) then None
    else Some(Party(TextAt(c, m, PartyName(side)), AddressOf(c, m, side, prefix)))
  }

  function AccountOf(c: Conversion, m: Values, side: Side): Option<Account> {
    var other := if side.Debtor? then TextAt(c, m, DebtorAccountOther) else None;
    if AccountIban(side) !in m && AccountName(side) !in m && other.None? then None
    else Some(Account(TextAt(c, m, AccountIban(side)), TextAt(c, m, AccountName(side)), other))
  }

  function AgentOf(c: Conversion, m: Values, side: Side): Option<Agent> {
    if AgentBic(side) !in m && AgentName(side) !in m then None
    else Some(Agent(TextAt(c, m, AgentBic(side)), TextAt(c, m, AgentName(side))))
  }

  function AmountOf(c: Conversion, m: Values): Option<Amount> {
    if AmountMinor !in m && AmountCurrency !in m then None
    else Some(Amount(if AmountMinor in m then c.minor(m[AmountMinor]) else 0,
                     if AmountCurrency in m then Mapping.Currency(c, m[AmountCurrency]) else "EUR"))
  }

  /** The transaction that holds exactly these values. */
  function TxOf(c: Conversion, m: Values, prefix: string): Tx {
    Tx(TextAt(c, m, InstructionId), TextAt(c, m, EndToEndId), TextAt(c, m, TransactionId), AmountOf(c, m),
       PartyOf(c, m, Debtor, prefix), PartyOf(c, m, Creditor, prefix), AccountOf(c, m, Debtor), AccountOf(c, m, Creditor),
       AgentOf(c, m, Debtor), AgentOf(c, m, Creditor),
       if Unstructured in m then Some(LinesAt(c, m, Unstructured)) else None)
  }

  // ----- each setter adds its own value -----

  lemma AddressWrite(c: Conversion, m: Values, side: Side, field: AddressField, v: Json, prefix: string)
    requires PartyAddress(side, field) !in m
    ensures SetAddress(c, Or(AddressOf(c, m, side, prefix), NEW_ADDRESS), [FieldStep(field)], v, AddressPath(side, prefix))
      == AddressOf(c, m[PartyAddress(side, field) := v], side, prefix).value
  {
    var a := Or(AddressOf(c, m, side, prefix), NEW_ADDRESS);
    var b := AddressOf(c, m[PartyAddress(side, field) := v], side, prefix).value;
    assert |"street_name"| == 11 && |"building_number"| == 15 && |"postcode"| == 8 && |"town_name"| == 9
      && |"country"| == 7 && |"address_lines"| == 13;
    match field
    case Country =>
      assert a.originalFields == map[];
      assert b.originalFields == map["Ctry" := c.text(v)];
    case Lines =>
      assert a.addressLines == [];
    case _ =>
  }

  lemma PartyAddressWrite(c: Conversion, m: Values, side: Side, field: AddressField, v: Json, prefix: string)
    requires PartyAddress(side, field) !in m
    ensures SetParty(c, PartyOf(c, m, side, prefix), ["postal_address", FieldStep(field)], v, AddressPath(side, prefix))
      == PartyOf(c, m[PartyAddress(side, field) := v], side, prefix)
  {
    AddressWrite(c, m, side, field, v, prefix);
    assert |"postal_address"| != |"name"|;
    assert ["postal_address", FieldStep(field)][1..] == [FieldStep(field)];
    var m' := m[PartyAddress(side, field) := v];
    assert AnyAddress(m', side) && TextAt(c, m', PartyName(side)) == TextAt(c, m, PartyName(side));
  }

  lemma SameAddress(c: Conversion, m: Values, t: Target, v: Json, side: Side, prefix: string)
    requires !(t.PartyAddress? && t.side == side)
    ensures AnyAddress(m[t := v], side) == AnyAddress(m, side)
    ensures AddressOf(c, m[t := v], side, prefix) == AddressOf(c, m, side, prefix)
  {
  }

  lemma PartyNameWrite(c: Conversion, m: Values, side: Side, v: Json, prefix: string)
    ensures SetParty(c, PartyOf(c, m, side, prefix), ["name"], v, AddressPath(side, prefix))
      == PartyOf(c, m[PartyName(side) := v], side, prefix)
  {
    SameAddress(c, m, PartyName(side), v, side, prefix);
  }

  lemma SameParty(c: Conversion, m: Values, t: Target, v: Json, side: Side, prefix: string)
    requires !((t.PartyAddress? || t.PartyName?) && t.side == side)
    ensures PartyOf(c, m[t := v], side, prefix) == PartyOf(c, m, side, prefix)
  {
    SameAddress(c, m, t, v, side, prefix);
  }

  /** The target belongs to the account of this side. */
  predicate OfAccount(t: Target, side: Side) {
    ((t.AccountIban? || t.AccountName?) && t.side == side) || (t.DebtorAccountOther? && side.Debtor?)
  }

  lemma AccountWrite(c: Conversion, m: Values, t: Target, v: Json, side: Side)
    requires OfAccount(t, side) && t !in m
    ensures |Steps(t)| == 2 && Steps(t)[0] == AccountStep(side)
    ensures SetAccount(c, AccountOf(c, m, side), Steps(t)[1..], v) == AccountOf(c, m[t := v], side)
  {
    assert |"iban"| == 4 && "iban"[0] != "name"[0] && |"name"| == 4 && |"other_identification"| == 20;
    assert Steps(t)[1..] == [Steps(t)[1]];
  }

  lemma AgentWrite(c: Conversion, m: Values, t: Target, v: Json, side: Side)
    requires (t.AgentBic? || t.AgentName?) && t.side == side && t !in m
    ensures |Steps(t)| == 2 && Steps(t)[0] == AgentStep(side)
    ensures SetAgent(c, AgentOf(c, m, side), Steps(t)[1..], v) == AgentOf(c, m[t := v], side)
  {
    assert |"bic"| == 3 && |"name"| == 4;
    assert Steps(t)[1..] == [Steps(t)[1]];
  }

  lemma AmountWrite(c: Conversion, m: Values, t: Target, v: Json)
    requires (t.AmountMinor? || t.AmountCurrency?) && t !in m
    ensures |Steps(t)| == 2 && SetAmount(c, AmountOf(c, m), Steps(t)[1], v) == AmountOf(c, m[t := v])
  {
    assert |"amount_minor"| == 12 && |"currency"| == 8;
  }

  // ----- which setter a target reaches -----

  lemma TopSteps()
    ensures |"amount"| == 6 && |"instruction_id"| == 14 && |"end_to_end_id"| == 13 && |"transaction_id"| == 14
    ensures |"debtor"| == 6 && |"creditor"| == 8 && |"debtor_account"| == 14 && |"creditor_account"| == 16
    ensures |"debtor_agent"| == 12 && |"creditor_agent"| == 14 && |"remittance"| == 10
    ensures "amount"[0] == 'a' && "instruction_id"[0] == 'i' && "transaction_id"[0] == 't' && "debtor"[0] == 'd'
    ensures "debtor_account"[0] == 'd' && "creditor_agent"[0] == 'c'
  {
  }

  lemma ToParty(c: Conversion, tx: Tx, side: Side, rest: seq<string>, v: Json, prefix: string)
    ensures SetSegments(c, tx, [PartyStep(side)] + rest, v, prefix)
      == if side.Debtor? then tx.(debtor := SetParty(c, tx.debtor, rest, v, AddressPath(side, prefix)))
         else tx.(creditor := SetParty(c, tx.creditor, rest, v, AddressPath(side, prefix)))
  {
    TopSteps();
    assert ([PartyStep(side)] + rest)[1..] == rest;
  }

  lemma ToAccount(c: Conversion, tx: Tx, side: Side, rest: seq<string>, v: Json, prefix: string)
    ensures SetSegments(c, tx, [AccountStep(side)] + rest, v, prefix)
      == if side.Debtor? then tx.(debtorAccount := SetAccount(c, tx.debtorAccount, rest, v))
         else tx.(creditorAccount := SetAccount(c, tx.creditorAccount, rest, v))
  {
    TopSteps();
    assert ([AccountStep(side)] + rest)[1..] == rest;
  }

  lemma ToAgent(c: Conversion, tx: Tx, side: Side, rest: seq<string>, v: Json, prefix: string)
    ensures SetSegments(c, tx, [AgentStep(side)] + rest, v, prefix)
      == if side.Debtor? then tx.(debtorAgent := SetAgent(c, tx.debtorAgent, rest, v))
         else tx.(creditorAgent := SetAgent(c, tx.creditorAgent, rest, v))
  {
    TopSteps();
    assert ([AgentStep(side)] + rest)[1..] == rest;
  }

  lemma ToIdentifier(c: Conversion, tx: Tx, v: Json, prefix: string)
    ensures SetSegments(c, tx, ["instruction_id"], v, prefix) == tx.(instructionId := Some(c.text(v)))
    ensures SetSegments(c, tx, ["end_to_end_id"], v, prefix) == tx.(endToEndId := Some(c.text(v)))
    ensures SetSegments(c, tx, ["transaction_id"], v, prefix) == tx.(transactionId := Some(c.text(v)))
  {
    TopSteps();
  }

  lemma ToRemittance(c: Conversion, tx: Tx, v: Json, prefix: string)
    ensures SetSegments(c, tx, ["remittance", "unstructured"], v, prefix)
      == tx.(remittance := Some(Or(tx.remittance, []) + [c.text(v)]))
  {
    TopSteps();
    assert ["remittance", "unstructured"][1..] == ["unstructured"];
  }

  // ----- writing one allowed target -----

  lemma SameAccount(c: Conversion, m: Values, t: Target, v: Json, side: Side)
    requires !OfAccount(t, side)
    ensures AccountOf(c, m[t := v], side) == AccountOf(c, m, side)
  {
  }

  lemma SameAgent(c: Conversion, m: Values, t: Target, v: Json, side: Side)
    requires !((t.AgentBic? || t.AgentName?) && t.side == side)
    ensures AgentOf(c, m[t := v], side) == AgentOf(c, m, side)
  {
  }

  lemma SameAmount(c: Conversion, m: Values, t: Target, v: Json)
    requires !t.AmountMinor? && !t.AmountCurrency?
    ensures AmountOf(c, m[t := v]) == AmountOf(c, m)
  {
  }

  function Other(side: Side): Side { if side.Debtor? then Creditor else Debtor }

  predicate OfParty(t: Target) { t.PartyName? || t.PartyAddress? }
  predicate OfAgent(t: Target) { t.AgentBic? || t.AgentName? }
  predicate OfAmount(t: Target) { t.AmountMinor? || t.AmountCurrency? }
  predicate OfAnyAccount(t: Target) { t.AccountIban? || t.AccountName? || t.DebtorAccountOther? }
  predicate OfTop(t: Target) { t.InstructionId? || t.EndToEndId? || t.TransactionId? || t.Unstructured? }

  function AccountSide(t: Target): Side
    requires OfAnyAccount(t)
  {
    if t.DebtorAccountOther? then Debtor else t.side
  }

  lemma TopOf(c: Conversion, m: Values, t: Target, v: Json, tx: Tx, prefix: string)
    requires tx == TxOf(c, m, prefix) && !OfTop(t)
    ensures var x := TxOf(c, m[t := v], prefix);
      && x.instructionId == tx.instructionId && x.endToEndId == tx.endToEndId && x.transactionId == tx.transactionId
      && x.remittance == tx.remittance
  {
  }

  lemma WriteParty(c: Conversion, m: Values, t: Target, v: Json, prefix: string)
    requires OfParty(t) && t !in m
    ensures SetSegments(c, TxOf(c, m, prefix), Steps(t), v, prefix) == TxOf(c, m[t := v], prefix)
  {
    PartySteps(c, m, t, v, prefix);
    TopOf(c, m, t, v, TxOf(c, m, prefix), prefix);
    SameParty(c, m, t, v, Other(t.side), prefix);
    SameMoney(c, m, t, v);
  }

  lemma SameMoney(c: Conversion, m: Values, t: Target, v: Json)
    requires !OfAnyAccount(t) && !OfAgent(t) && !OfAmount(t)
    ensures AmountOf(c, m[t := v]) == AmountOf(c, m)
    ensures forall side :: AccountOf(c, m[t := v], side) == AccountOf(c, m, side)
    ensures forall side :: AgentOf(c, m[t := v], side) == AgentOf(c, m, side)
  {
    forall side ensures AccountOf(c, m[t := v], side) == AccountOf(c, m, side) {
      SameAccount(c, m, t, v, side);
    }
    forall side ensures AgentOf(c, m[t := v], side) == AgentOf(c, m, side) {
      SameAgent(c, m, t, v, side);
    }
  }

  lemma PartySteps(c: Conversion, m: Values, t: Target, v: Json, prefix: string)
    requires OfParty(t) && t !in m
    ensures var tx := TxOf(c, m, prefix); var party := PartyOf(c, m[t := v], t.side, prefix);
      SetSegments(c, tx, Steps(t), v, prefix) == if t.side.Debtor? then tx.(debtor := party) else tx.(creditor := party)
  {
    var side, rest := t.side, if t.PartyName? then ["name"] else ["postal_address", FieldStep(t.field)];
    assert Steps(t) == [PartyStep(side)] + rest;
    ToParty(c, TxOf(c, m, prefix), side, rest, v, prefix);
    if t.PartyName? {
      PartyNameWrite(c, m, side, v, prefix);
    } else {
      PartyAddressWrite(c, m, side, t.field, v, prefix);
    }
  }

  lemma WriteAccount(c: Conversion, m: Values, t: Target, v: Json, prefix: string)
    requires OfAnyAccount(t) && t !in m
    ensures SetSegments(c, TxOf(c, m, prefix), Steps(t), v, prefix) == TxOf(c, m[t := v], prefix)
  {
    var side := AccountSide(t);
    AccountWrite(c, m, t, v, side);
    assert Steps(t) == [AccountStep(side)] + Steps(t)[1..];
    ToAccount(c, TxOf(c, m, prefix), side, Steps(t)[1..], v, prefix);
    TopOf(c, m, t, v, TxOf(c, m, prefix), prefix);
    SameParty(c, m, t, v, Debtor, prefix);
    SameParty(c, m, t, v, Creditor, prefix);
    SameAccount(c, m, t, v, Other(side));
    SameAmount(c, m, t, v);
    SameAgent(c, m, t, v, Debtor);
    SameAgent(c, m, t, v, Creditor);
  }

  lemma WriteAgent(c: Conversion, m: Values, t: Target, v: Json, prefix: string)
    requires OfAgent(t) && t !in m
    ensures SetSegments(c, TxOf(c, m, prefix), Steps(t), v, prefix) == TxOf(c, m[t := v], prefix)
  {
    AgentWrite(c, m, t, v, t.side);
    assert Steps(t) == [AgentStep(t.side)] + Steps(t)[1..];
    ToAgent(c, TxOf(c, m, prefix), t.side, Steps(t)[1..], v, prefix);
    TopOf(c, m, t, v, TxOf(c, m, prefix), prefix);
    SameParty(c, m, t, v, Debtor, prefix);
    SameParty(c, m, t, v, Creditor, prefix);
    SameAccount(c, m, t, v, Debtor);
    SameAccount(c, m, t, v, Creditor);
    SameAmount(c, m, t, v);
    SameAgent(c, m, t, v, Other(t.side));
  }

  lemma WriteAmount(c: Conversion, m: Values, t: Target, v: Json, prefix: string)
    requires OfAmount(t) && t !in m
    ensures SetSegments(c, TxOf(c, m, prefix), Steps(t), v, prefix) == TxOf(c, m[t := v], prefix)
  {
    AmountWrite(c, m, t, v);
    TopOf(c, m, t, v, TxOf(c, m, prefix), prefix);
    SameParty(c, m, t, v, Debtor, prefix);
    SameParty(c, m, t, v, Creditor, prefix);
    SameAccount(c, m, t, v, Debtor);
    SameAccount(c, m, t, v, Creditor);
    SameAgent(c, m, t, v, Debtor);
    SameAgent(c, m, t, v, Creditor);
  }

  lemma WriteTop(c: Conversion, m: Values, t: Target, v: Json, prefix: string)
    requires OfTop(t) && t !in m
    ensures SetSegments(c, TxOf(c, m, prefix), Steps(t), v, prefix) == TxOf(c, m[t := v], prefix)
  {
    if t.Unstructured? {
      ToRemittance(c, TxOf(c, m, prefix), v, prefix);
      assert [] + [c.text(v)] == [c.text(v)];
    } else {
      ToIdentifier(c, TxOf(c, m, prefix), v, prefix);
    }
    SameParty(c, m, t, v, Debtor, prefix);
    SameParty(c, m, t, v, Creditor, prefix);
    SameMoney(c, m, t, v);
  }

  /** Writing a target that holds no value yet adds exactly that value. */
  lemma WriteTarget(c: Conversion, m: Values, t: Target, v: Json, prefix: string)
    requires t !in m
    ensures SetTarget(c, TxOf(c, m, prefix), NameOf(t), v, prefix) == TxOf(c, m[t := v], prefix)
  {
    DotsOfName(t);
    if OfParty(t) {
      WriteParty(c, m, t, v, prefix);
    } else if OfAnyAccount(t) {
      WriteAccount(c, m, t, v, prefix);
    } else if OfAgent(t) {
      WriteAgent(c, m, t, v, prefix);
    } else if OfAmount(t) {
      WriteAmount(c, m, t, v, prefix);
    } else {
      WriteTop(c, m, t, v, prefix);
    }
  }

  // ----- rule paths read what was mapped -----

  /** A mapped value as the transaction holds it. */
  function Converted(c: Conversion, t: Target, v: Json): Node {
    if t.AmountMinor? then NumberNode(c.minor(v))
    else if t.AmountCurrency? then TextNode(Mapping.Currency(c, v))
    else if t.Unstructured? || (t.PartyAddress? && t.field.Lines?) then LinesNode([c.text(v)])
    else TextNode(c.text(v))
  }

  lemma FollowOne(node: Node, a: string)
    ensures Follow(node, [a]) == Attr(node, a)
  {
    assert [a][1..] == [];
  }

  lemma FollowTwo(node: Node, a: string, b: string)
    ensures Follow(node, [a, b]) == Attr(Attr(node, a), b)
  {
    assert [a, b][1..] == [b];
    FollowOne(Attr(node, a), b);
  }

  lemma FollowThree(node: Node, a: string, b: string, d: string)
    ensures Follow(node, [a, b, d]) == Attr(Attr(Attr(node, a), b), d)
  {
    assert [a, b, d][1..] == [b, d];
    FollowTwo(Attr(node, a), b, d);
  }

  lemma TopAttr(tx: Tx, side: Side)
    ensures TxAttr(tx, PartyStep(side)) == PartyNodeOf(if side.Debtor? then tx.debtor else tx.creditor)
    ensures TxAttr(tx, AccountStep(side)) == AccountNodeOf(if side.Debtor? then tx.debtorAccount else tx.creditorAccount)
    ensures TxAttr(tx, AgentStep(side)) == AgentNodeOf(if side.Debtor? then tx.debtorAgent else tx.creditorAgent)
  {
    TopSteps();
  }

  lemma TopNodes(c: Conversion, m: Values, side: Side, prefix: string)
    ensures Attr(TxNode(TxOf(c, m, prefix)), PartyStep(side)) == PartyNodeOf(PartyOf(c, m, side, prefix))
    ensures Attr(TxNode(TxOf(c, m, prefix)), AccountStep(side)) == AccountNodeOf(AccountOf(c, m, side))
    ensures Attr(TxNode(TxOf(c, m, prefix)), AgentStep(side)) == AgentNodeOf(AgentOf(c, m, side))
  {
    TopAttr(TxOf(c, m, prefix), side);
  }

  lemma ReadAddress(c: Conversion, m: Values, t: Target, prefix: string)
    requires t.PartyAddress? && t in m
    ensures AddressOf(c, m, t.side, prefix).Some?
    ensures AddressAttr(AddressOf(c, m, t.side, prefix).value, FieldStep(t.field)) == Converted(c, t, m[t])
  {
    assert t == PartyAddress(t.side, t.field);
    assert |"street_name"| == 11 && |"building_number"| == 15 && |"postcode"| == 8 && |"town_name"| == 9
      && |"country"| == 7 && |"address_lines"| == 13;
    match t.field
    case Street =>
    case Building =>
    case Postcode =>
    case Town =>
    case Country =>
    case Lines =>
  }

  lemma ReadPartyNode(c: Conversion, m: Values, t: Target, prefix: string)
    requires OfParty(t) && t in m
    ensures PartyOf(c, m, t.side, prefix).Some?
    ensures t.PartyName? ==>
      Attr(PartyNodeOf(PartyOf(c, m, t.side, prefix)), "name") == Converted(c, t, m[t])
    ensures t.PartyAddress? ==>
      Attr(Attr(PartyNodeOf(PartyOf(c, m, t.side, prefix)), "postal_address"), FieldStep(t.field)) == Converted(c, t, m[t])
  {
    if t.PartyAddress? {
      ReadAddress(c, m, t, prefix);
      assert |"postal_address"| != |"name"|;
    }
  }

  lemma ReadParty(c: Conversion, m: Values, t: Target, prefix: string)
    requires OfParty(t) && t in m
    ensures Follow(TxNode(TxOf(c, m, prefix)), Steps(t)) == Converted(c, t, m[t])
  {
    var node := TxNode(TxOf(c, m, prefix));
    ReadPartyNode(c, m, t, prefix);
    TopNodes(c, m, t.side, prefix);
    ReadPartyStep(node, t, PartyNodeOf(PartyOf(c, m, t.side, prefix)));
  }

  lemma ReadPartyStep(node: Node, t: Target, inner: Node)
    requires OfParty(t) && Attr(node, PartyStep(t.side)) == inner
    ensures Follow(node, Steps(t))
      == if t.PartyName? then Attr(inner, "name") else Attr(Attr(inner, "postal_address"), FieldStep(t.field))
  {
    if t.PartyName? {
      FollowTwo(node, PartyStep(t.side), "name");
    } else {
      ReadThree(node, t, inner);
    }
  }

  lemma ReadThree(node: Node, t: Target, inner: Node)
    requires t.PartyAddress? && Attr(node, PartyStep(t.side)) == inner
    ensures Follow(node, Steps(t)) == Attr(Attr(inner, "postal_address"), FieldStep(t.field))
  {
    FollowThree(node, PartyStep(t.side), "postal_address", FieldStep(t.field));
  }

  lemma ReadAccountNode(c: Conversion, m: Values, t: Target)
    requires OfAnyAccount(t) && t in m
    ensures |Steps(t)| == 2 && Steps(t)[0] == AccountStep(AccountSide(t))
    ensures Attr(AccountNodeOf(AccountOf(c, m, AccountSide(t))), Steps(t)[1]) == Converted(c, t, m[t])
  {
    assert |"iban"| == 4 && "iban"[0] != "name"[0] && |"name"| == 4 && |"other_identification"| == 20;
  }

  lemma ReadAccount(c: Conversion, m: Values, t: Target, prefix: string)
    requires OfAnyAccount(t) && t in m
    ensures Follow(TxNode(TxOf(c, m, prefix)), Steps(t)) == Converted(c, t, m[t])
  {
    ReadAccountNode(c, m, t);
    TopNodes(c, m, AccountSide(t), prefix);
    ReadTwo(TxNode(TxOf(c, m, prefix)), t, AccountNodeOf(AccountOf(c, m, AccountSide(t))));
  }

  lemma ReadTwo(node: Node, t: Target, inner: Node)
    requires |Steps(t)| == 2 && Attr(node, Steps(t)[0]) == inner
    ensures Follow(node, Steps(t)) == Attr(inner, Steps(t)[1])
  {
    var steps := Steps(t);
    assert steps == [steps[0], steps[1]];
    FollowTwo(node, steps[0], steps[1]);
  }

  lemma ReadAgentNode(c: Conversion, m: Values, t: Target)
    requires OfAgent(t) && t in m
    ensures |Steps(t)| == 2 && Steps(t)[0] == AgentStep(t.side)
    ensures Attr(AgentNodeOf(AgentOf(c, m, t.side)), Steps(t)[1]) == Converted(c, t, m[t])
  {
    assert |"bic"| == 3 && |"name"| == 4;
  }

  lemma ReadAgent(c: Conversion, m: Values, t: Target, prefix: string)
    requires OfAgent(t) && t in m
    ensures Follow(TxNode(TxOf(c, m, prefix)), Steps(t)) == Converted(c, t, m[t])
  {
    ReadAgentNode(c, m, t);
    TopNodes(c, m, t.side, prefix);
    ReadTwo(TxNode(TxOf(c, m, prefix)), t, AgentNodeOf(AgentOf(c, m, t.side)));
  }

  lemma ReadAmount(c: Conversion, m: Values, t: Target, prefix: string)
    requires OfAmount(t) && t in m
    ensures Follow(TxNode(TxOf(c, m, prefix)), Steps(t)) == Converted(c, t, m[t])
  {
    var node := TxNode(TxOf(c, m, prefix));
    TopSteps();
    FollowTwo(node, "amount", Steps(t)[1]);
    assert |"amount_minor"| == 12 && |"currency"| == 8;
  }

  lemma ReadTop(c: Conversion, m: Values, t: Target, prefix: string)
    requires OfTop(t) && t in m
    ensures Follow(TxNode(TxOf(c, m, prefix)), Steps(t)) == Converted(c, t, m[t])
  {
    var node := TxNode(TxOf(c, m, prefix));
    TopSteps();
    if t.Unstructured? {
      FollowTwo(node, "remittance", "unstructured");
    } else {
      FollowOne(node, Steps(t)[0]);
    }
  }

  lemma ReadTarget(c: Conversion, m: Values, t: Target, prefix: string)
    requires t in m
    ensures ResolveField(TxOf(c, m, prefix), NameOf(t)) == Converted(c, t, m[t])
  {
    DotsOfName(t);
    if OfParty(t) {
      ReadParty(c, m, t, prefix);
    } else if OfAnyAccount(t) {
      ReadAccount(c, m, t, prefix);
    } else if OfAgent(t) {
      ReadAgent(c, m, t, prefix);
    } else if OfAmount(t) {
      ReadAmount(c, m, t, prefix);
    } else {
      ReadTop(c, m, t, prefix);
    }
  }

  // ----- validated definitions -----

  const ALL_TARGETS: seq<Target> := IDENTITY_TARGETS + ADDRESS_TARGETS + REFERENCE_TARGETS

  const IDENTITY_TARGETS: seq<Target> := [
    InstructionId, EndToEndId, TransactionId, AmountMinor, AmountCurrency, PartyName(Debtor), PartyName(Creditor)]

  const ADDRESS_TARGETS: seq<Target> := [
    PartyAddress(Debtor, Street), PartyAddress(Debtor, Building), PartyAddress(Debtor, Postcode),
    PartyAddress(Debtor, Town), PartyAddress(Debtor, Country), PartyAddress(Debtor, Lines),
    PartyAddress(Creditor, Street), PartyAddress(Creditor, Building), PartyAddress(Creditor, Postcode),
    PartyAddress(Creditor, Town), PartyAddress(Creditor, Country), PartyAddress(Creditor, Lines)]

  const REFERENCE_TARGETS: seq<Target> := [
    AccountIban(Debtor), AccountName(Debtor), DebtorAccountOther, AccountIban(Creditor), AccountName(Creditor),
    AgentBic(Debtor), AgentName(Debtor), AgentBic(Creditor), AgentName(Creditor), Unstructured]

  /** The first of `ts` that is spelled `name`. */
  function FindTarget(ts: seq<Target>, name: string): (t: Option<Target>)
    ensures t.Some? ==> NameOf(t.value) == name
  {
    if ts == [] then None else if NameOf(ts[0]) == name then Some(ts[0]) else FindTarget(ts[1..], name)
  }

  lemma {:induction false} FindListed(ts: seq<Target>, t: Target)
    requires t in ts
    ensures FindTarget(ts, NameOf(t)).Some?
  {
    if NameOf(ts[0]) != NameOf(t) {
      FindListed(ts[1..], t);
    }
  }

  predicate Allowed(name: string) { FindTarget(ALL_TARGETS, name).Some? }

  function TargetOf(name: string): (t: Target)
    requires Allowed(name)
    ensures NameOf(t) == name
  {
    FindTarget(ALL_TARGETS, name).value
  }

  lemma AddressListed(side: Side, field: AddressField)
    ensures PartyAddress(side, field) in ADDRESS_TARGETS
  {
    var ts := ADDRESS_TARGETS;
    assert ts[0] == PartyAddress(Debtor, Street) && ts[1] == PartyAddress(Debtor, Building);
    assert ts[2] == PartyAddress(Debtor, Postcode) && ts[3] == PartyAddress(Debtor, Town);
    assert ts[4] == PartyAddress(Debtor, Country) && ts[5] == PartyAddress(Debtor, Lines);
    assert ts[6] == PartyAddress(Creditor, Street) && ts[7] == PartyAddress(Creditor, Building);
    assert ts[8] == PartyAddress(Creditor, Postcode) && ts[9] == PartyAddress(Creditor, Town);
    assert ts[10] == PartyAddress(Creditor, Country) && ts[11] == PartyAddress(Creditor, Lines);
  }

  lemma ReferenceListed(t: Target)
    requires OfAnyAccount(t) || OfAgent(t) || t.Unstructured?
    ensures t in REFERENCE_TARGETS
  {
    var ts := REFERENCE_TARGETS;
    assert ts[0] == AccountIban(Debtor) && ts[1] == AccountName(Debtor) && ts[2] == DebtorAccountOther;
    assert ts[3] == AccountIban(Creditor) && ts[4] == AccountName(Creditor) && ts[5] == AgentBic(Debtor);
    assert ts[6] == AgentName(Debtor) && ts[7] == AgentBic(Creditor) && ts[8] == AgentName(Creditor);
    assert ts[9] == Unstructured;
    if t.AccountIban? || t.AccountName? || OfAgent(t) {
      assert t.side == Debtor || t.side == Creditor;
    }
  }

  lemma IdentityListed(t: Target)
    requires t.InstructionId? || t.EndToEndId? || t.TransactionId? || OfAmount(t) || t.PartyName?
    ensures t in IDENTITY_TARGETS
  {
    var ts := IDENTITY_TARGETS;
    assert ts[0] == InstructionId && ts[1] == EndToEndId && ts[2] == TransactionId && ts[3] == AmountMinor;
    assert ts[4] == AmountCurrency && ts[5] == PartyName(Debtor) && ts[6] == PartyName(Creditor);
    if t.PartyName? {
      assert t.side == Debtor || t.side == Creditor;
    }
  }

  /** Every target of the model is allowed by its name. */
  lemma EveryTargetAllowed(t: Target)
    ensures Allowed(NameOf(t))
  {
    if t.PartyAddress? {
      AddressListed(t.side, t.field);
    } else if OfAnyAccount(t) || OfAgent(t) || t.Unstructured? {
      ReferenceListed(t);
    } else {
      IdentityListed(t);
    }
    Listed(t, IDENTITY_TARGETS, ADDRESS_TARGETS, REFERENCE_TARGETS);
    FindListed(ALL_TARGETS, t);
  }

  lemma Listed(t: Target, a: seq<Target>, b: seq<Target>, d: seq<Target>)
    requires t in a || t in b || t in d
    ensures t in a + b + d
  {
  }

  /** Every target is allowed and none is named twice. */
  ghost predicate ValidFields(fields: seq<FieldMapping>) {
    AllAllowed(fields) && NoDuplicates(fields)
  }

  ghost predicate AllAllowed(fields: seq<FieldMapping>) {
    forall i :: 0 <= i < |fields| ==> Allowed(fields[i].target)
  }

  ghost predicate NoDuplicates(fields: seq<FieldMapping>) {
    forall i, j :: 0 <= i < j < |fields| ==> fields[i].target != fields[j].target
  }

  /** The values the fields contribute for a record, by target. */
  ghost function ValuesOf(c: Conversion, record: Json, fields: seq<FieldMapping>): Values
    requires ValidFields(fields)
  {
    if fields == [] then map[]
    else
      var front, fm := fields[..|fields| - 1], fields[|fields| - 1];
      var v := FieldValue(c, record, fm);
      if v.Some? then ValuesOf(c, record, front)[TargetOf(fm.target) := v.value] else ValuesOf(c, record, front)
  }

  lemma DistinctTargets(fields: seq<FieldMapping>, i: nat, j: nat)
    requires ValidFields(fields) && i < j < |fields|
    ensures TargetOf(fields[i].target) != TargetOf(fields[j].target)
  {
    assert NameOf(TargetOf(fields[i].target)) == fields[i].target;
    assert NameOf(TargetOf(fields[j].target)) == fields[j].target;
  }

  lemma ValidFront(fields: seq<FieldMapping>)
    requires ValidFields(fields) && fields != []
    ensures ValidFields(fields[..|fields| - 1])
  {
  }

  lemma {:induction false} ValueAt(c: Conversion, record: Json, fields: seq<FieldMapping>, i: nat)
    requires ValidFields(fields) && i < |fields| && FieldValue(c, record, fields[i]).Some?
    ensures var m, t := ValuesOf(c, record, fields), TargetOf(fields[i].target);
      t in m && m[t] == FieldValue(c, record, fields[i]).value
  {
    if i < |fields| - 1 {
      ValidFront(fields);
      DistinctTargets(fields, i, |fields| - 1);
      ValueAt(c, record, fields[..|fields| - 1], i);
    }
  }

  lemma {:induction false} ValueFrom(c: Conversion, record: Json, fields: seq<FieldMapping>, t: Target) returns (i: nat)
    requires ValidFields(fields) && t in ValuesOf(c, record, fields)
    ensures i < |fields| && TargetOf(fields[i].target) == t && FieldValue(c, record, fields[i]).Some?
  {
    var n := |fields| - 1;
    if TargetOf(fields[n].target) == t && FieldValue(c, record, fields[n]).Some? {
      i := n;
    } else {
      ValidFront(fields);
      i := ValueFrom(c, record, fields[..n], t);
    }
  }

  lemma FreshTarget(c: Conversion, record: Json, fields: seq<FieldMapping>)
    requires ValidFields(fields) && fields != []
    ensures ValidFields(fields[..|fields| - 1])
    ensures TargetOf(fields[|fields| - 1].target) !in ValuesOf(c, record, fields[..|fields| - 1])
  {
    var front, n := fields[..|fields| - 1], |fields| - 1;
    ValidFront(fields);
    if TargetOf(fields[n].target) in ValuesOf(c, record, front) {
      var i := ValueFrom(c, record, front, TargetOf(fields[n].target));
      DistinctTargets(fields, i, n);
    }
  }

  lemma AddValue(c: Conversion, m: Values, name: string, v: Json, prefix: string)
    requires Allowed(name) && TargetOf(name) !in m
    ensures SetTarget(c, TxOf(c, m, prefix), name, v, prefix) == TxOf(c, m[TargetOf(name) := v], prefix)
  {
    WriteTarget(c, m, TargetOf(name), v, prefix);
  }

  /** Mapping a record builds exactly the transaction of its values. */
  lemma {:induction false} MapIsTxOf(c: Conversion, record: Json, fields: seq<FieldMapping>, prefix: string)
    requires ValidFields(fields)
    ensures MapFields(c, record, fields, prefix) == TxOf(c, ValuesOf(c, record, fields), prefix)
  {
    if fields == [] {
      NoValues(c, prefix);
    } else {
      var front, fm := fields[..|fields| - 1], fields[|fields| - 1];
      FreshTarget(c, record, fields);
      MapIsTxOf(c, record, front, prefix);
      var v := FieldValue(c, record, fm);
      if v.Some? {
        AddValue(c, ValuesOf(c, record, front), fm.target, v.value, prefix);
      }
    }
  }

  lemma NoValues(c: Conversion, prefix: string)
    ensures TxOf(c, map[], prefix) == NEW_TX
  {
  }

  /** For a validated definition, every field that has a value can be read back by its own target
      path, converted but otherwise untouched: nothing that was mapped is dropped or overwritten. */
  lemma MappedIsReadBack(c: Conversion, record: Json, fields: seq<FieldMapping>, prefix: string, i: nat)
    requires ValidFields(fields) && i < |fields| && FieldValue(c, record, fields[i]).Some?
    ensures ResolveField(MapFields(c, record, fields, prefix), fields[i].target)
      == Converted(c, TargetOf(fields[i].target), FieldValue(c, record, fields[i]).value)
  {
    MapIsTxOf(c, record, fields, prefix);
    ValueAt(c, record, fields, i);
    ReadTarget(c, ValuesOf(c, record, fields), TargetOf(fields[i].target), prefix);
  }

  // ----- validation -----

  datatype Format = JsonFormat | CsvFormat | CustomXml

  datatype Definition = Definition(format: Format, recordSelector: string, fields: seq<FieldMapping>)

  datatype Issue = NoFields | SelectorRequired | EmptySource(at: string) | UnknownTarget(at: string)
                 | DuplicateTarget(at: string) | UnsupportedTransform(name: string, at: string)

  /** A definition that may be published. */
  ghost predicate Publishable(d: Definition, supported: set<string>) {
    && d.fields != [] && (d.format.CustomXml? ==> d.recordSelector != "")
    && ValidFields(d.fields)
    && FieldsOk(d.fields, supported)
  }

  predicate Supported(names: seq<string>, supported: set<string>) {
    forall k :: 0 <= k < |names| ==> names[k] in supported
  }

  function TargetNames(fields: seq<FieldMapping>): set<string> {
    if fields == [] then {} else TargetNames(fields[..|fields| - 1]) + {fields[|fields| - 1].target}
  }

  lemma {:induction false} NamedAt(fields: seq<FieldMapping>, k: nat)
    requires k < |fields|
    ensures fields[k].target in TargetNames(fields)
  {
    if k < |fields| - 1 {
      NamedAt(fields[..|fields| - 1], k);
    }
  }

  lemma {:induction false} NamedFrom(fields: seq<FieldMapping>, name: string) returns (k: nat)
    requires name in TargetNames(fields)
    ensures k < |fields| && fields[k].target == name
  {
    k := |fields| - 1;
    if fields[k].target != name {
      k := NamedFrom(fields[..k], name);
    }
  }

  predicate FieldOk(fm: FieldMapping, supported: set<string>) {
    fm.source != "" && Supported(fm.transforms, supported)
  }

  predicate FieldsOk(fields: seq<FieldMapping>, supported: set<string>) {
    fields == [] || (FieldsOk(fields[..|fields| - 1], supported) && FieldOk(fields[|fields| - 1], supported))
  }

  /** The errors of `validate_mapping`: none exactly when the definition may be published. */
  method ValidateMapping(d: Definition, supported: set<string>) returns (errors: seq<Issue>)
    ensures errors == [] <==> Publishable(d, supported)
  {
    errors := [];
    if d.fields == [] {
      errors := errors + [NoFields];
    }
    if d.format.CustomXml? && d.recordSelector == "" {
      errors := errors + [SelectorRequired];
    }
    var more := ValidateFields(d.fields, supported);
    errors := errors + more;
  }

  method ValidateFields(fields: seq<FieldMapping>, supported: set<string>) returns (errors: seq<Issue>)
    ensures errors == [] <==> ValidFields(fields) && FieldsOk(fields, supported)
  {
    errors := [];
    var seen: set<string> := {};
    for i := 0 to |fields|
      invariant seen == TargetNames(fields[..i])
      invariant errors == [] <==> ValidFields(fields[..i]) && FieldsOk(fields[..i], supported)
    {
      var fm := fields[i];
      var found := FieldErrors(fm, fm.target in seen, supported);
      assert fields[..i + 1][..i] == fields[..i];
      OneMoreField(fields[..i + 1]);
      errors := errors + found;
      seen := seen + {fm.target};
    }
    assert fields[..|fields|] == fields;
  }

  lemma LastIsNew(fields: seq<FieldMapping>)
    requires NoDuplicates(fields) && fields != []
    ensures fields[|fields| - 1].target !in TargetNames(fields[..|fields| - 1])
  {
    var front, last := fields[..|fields| - 1], fields[|fields| - 1];
    if last.target in TargetNames(front) {
      var k := NamedFrom(front, last.target);
    }
  }

  lemma OneMoreAllowed(front: seq<FieldMapping>, last: FieldMapping)
    ensures AllAllowed(front + [last]) <==> AllAllowed(front) && Allowed(last.target)
  {
    var fields := front + [last];
    assert fields[|front|] == last && forall i :: 0 <= i < |front| ==> fields[i] == front[i];
  }

  lemma OneMoreDistinct(fields: seq<FieldMapping>)
    requires fields != []
    ensures var front, last := fields[..|fields| - 1], fields[|fields| - 1];
      NoDuplicates(fields) <==> NoDuplicates(front) && last.target !in TargetNames(front)
  {
    var front, n := fields[..|fields| - 1], |fields| - 1;
    if NoDuplicates(fields) {
      LastIsNew(fields);
    } else if fields[n].target !in TargetNames(front) {
      var i, j :| 0 <= i < j < |fields| && fields[i].target == fields[j].target;
      NamedAt(front, i);
      assert fields[i] == front[i] && (j < n ==> fields[j] == front[j]);
    }
  }

  lemma OneMoreField(fields: seq<FieldMapping>)
    requires fields != []
    ensures var front, last := fields[..|fields| - 1], fields[|fields| - 1];
      ValidFields(fields) <==> ValidFields(front) && Allowed(last.target) && last.target !in TargetNames(front)
  {
    OneMoreAllowed(fields[..|fields| - 1], fields[|fields| - 1]);
    assert fields == fields[..|fields| - 1] + [fields[|fields| - 1]];
    OneMoreDistinct(fields);
  }

  method FieldErrors(fm: FieldMapping, duplicate: bool, supported: set<string>) returns (errors: seq<Issue>)
    ensures errors == [] <==> FieldOk(fm, supported) && Allowed(fm.target) && !duplicate
  {
    errors := [];
    if fm.source == "" {
      errors := errors + [EmptySource(fm.target)];
    }
    if !Allowed(fm.target) {
      errors := errors + [UnknownTarget(fm.target)];
    }
    if duplicate {
      errors := errors + [DuplicateTarget(fm.target)];
    }
    ghost var before := errors == [];
    for k := 0 to |fm.transforms|
      invariant errors == [] <==> before && Supported(fm.transforms[..k], supported)
    {
      assert fm.transforms[..k + 1] == fm.transforms[..k] + [fm.transforms[k]];
      if fm.transforms[k] !in supported {
        errors := errors + [UnsupportedTransform(fm.transforms[k], fm.target)];
      }
    }
    assert fm.transforms[..|fm.transforms|] == fm.transforms;
  }

  // ----- the order of the fields -----

  lemma SameMember(fields: seq<FieldMapping>, fields': seq<FieldMapping>, i: nat)
    requires multiset(fields) == multiset(fields') && i < |fields|
    ensures exists j :: 0 <= j < |fields'| && fields'[j] == fields[i]
  {
    assert fields[i] in multiset(fields');
  }

  lemma TwiceInMultiset(s: seq<FieldMapping>, i: nat, j: nat)
    requires i < j < |s| && s[i] == s[j]
    ensures multiset(s)[s[i]] >= 2
  {
    assert s == s[..j] + s[j..];
    assert s[..j][i] in multiset(s[..j]) && s[j..][0] in multiset(s[j..]);
  }

  lemma OnceInMultiset(fields: seq<FieldMapping>, k: nat)
    requires NoDuplicates(fields) && k < |fields|
    ensures multiset(fields)[fields[k]] == 1
  {
    var x, before, after := fields[k], fields[..k], fields[k + 1..];
    assert fields == before + [x] + after;
    assert x !in before && x !in after;
    assert x !in multiset(before) && x !in multiset(after);
  }

  lemma ReorderedAllowed(fields: seq<FieldMapping>, fields': seq<FieldMapping>)
    requires AllAllowed(fields) && multiset(fields) == multiset(fields')
    ensures AllAllowed(fields')
  {
    forall i | 0 <= i < |fields'| ensures Allowed(fields'[i].target) {
      SameMember(fields', fields, i);
    }
  }

  lemma ReorderedPair(fields: seq<FieldMapping>, fields': seq<FieldMapping>, i: nat, j: nat)
    requires NoDuplicates(fields) && multiset(fields) == multiset(fields') && i < j < |fields'|
    ensures fields'[i].target != fields'[j].target
  {
    SameMember(fields', fields, i);
    SameMember(fields', fields, j);
    var k :| 0 <= k < |fields| && fields[k] == fields'[i];
    var l :| 0 <= l < |fields| && fields[l] == fields'[j];
    OnceInMultiset(fields, k);
    if fields'[i] == fields'[j] {
      TwiceInMultiset(fields', i, j);
    }
  }

  /** Any reordering of valid fields is valid. */
  lemma ReorderedValid(fields: seq<FieldMapping>, fields': seq<FieldMapping>)
    requires ValidFields(fields) && multiset(fields) == multiset(fields')
    ensures ValidFields(fields')
  {
    ReorderedAllowed(fields, fields');
    forall i, j | 0 <= i < j < |fields'| ensures fields'[i].target != fields'[j].target {
      ReorderedPair(fields, fields', i, j);
    }
  }

  lemma SubsetOfValues(c: Conversion, record: Json, fields: seq<FieldMapping>, fields': seq<FieldMapping>, t: Target)
    requires ValidFields(fields) && ValidFields(fields') && multiset(fields) == multiset(fields')
    requires t in ValuesOf(c, record, fields)
    ensures t in ValuesOf(c, record, fields') && ValuesOf(c, record, fields')[t] == ValuesOf(c, record, fields)[t]
  {
    var i := ValueFrom(c, record, fields, t);
    ValueAt(c, record, fields, i);
    SameMember(fields, fields', i);
    var j :| 0 <= j < |fields'| && fields'[j] == fields[i];
    ValueAt(c, record, fields', j);
  }

  /** Reordering the fields of a validated definition changes no mapped transaction. */
  lemma OrderIsIrrelevant(c: Conversion, record: Json, fields: seq<FieldMapping>, fields': seq<FieldMapping>, prefix: string)
    requires ValidFields(fields) && multiset(fields) == multiset(fields')
    ensures MapFields(c, record, fields, prefix) == MapFields(c, record, fields', prefix)
  {
    ReorderedValid(fields, fields');
    MapIsTxOf(c, record, fields, prefix);
    MapIsTxOf(c, record, fields', prefix);
    var m, m' := ValuesOf(c, record, fields), ValuesOf(c, record, fields');
    forall t | t in m ensures t in m' && m'[t] == m[t] {
      SubsetOfValues(c, record, fields, fields', t);
    }
    forall t | t in m' ensures t in m {
      SubsetOfValues(c, record, fields', fields, t);
    }
    assert m == m';
  }
}
