// Repair candidates of mapped (JSON, CSV) messages: the changes are proposed at the paths the mapper
// prints, and none of them is ever applied.
module MappedRepair {
  import opened Strings
  import opened XmlTree
  import opened Mapping
  import opened MappingLaws
  import Selectors
  import Pacs008
  import R = RepairEngine
  import C = Candidates

  // ----- the proposed changes -----

  function Raw(a: Address, name: string, field: Option<string>): Option<string> {
    R.OrElse(Pacs008.Get(a.originalFields, name), field)
  }

  function LeafChange(path: string, name: string, raw: Option<string>, value: Option<string>): seq<R.Change> {
    if value.Some? && value.value != "" && raw != value then [R.Change(path + "/" + name, raw, value)] else []
  }

  function ChangesOfAddress(a: Option<Address>, analyze: Address -> R.Analysis): seq<R.Change> {
    if a.None? || a.value.sourcePath.None? || a.value.sourcePath.value == "" then []
    else
      var r, path := analyze(a.value), a.value.sourcePath.value;
      LeafChange(path, "Ctry", Raw(a.value, "Ctry", a.value.country), r.countryCode)
      + LeafChange(path, "TwnNm", Raw(a.value, "TwnNm", a.value.townName), r.townName)
  }

  function PostalAddress(p: Option<Party>): Option<Address> { if p.Some? then p.value.postalAddress else None }

  /** The changes proposed for a mapped message; the mapper gives agents no address. */
  function ChangesOfTxs(txs: seq<Tx>, analyze: Address -> R.Analysis): seq<R.Change> {
    if txs == [] then []
    else
      var last := txs[|txs| - 1];
      ChangesOfTxs(txs[..|txs| - 1], analyze)
      + (ChangesOfAddress(PostalAddress(last.debtor), analyze) + ChangesOfAddress(PostalAddress(last.creditor), analyze))
  }

  // ----- applying them -----

  /** `int(segment.strip("[]"))`; nothing when that is not a number. */
  type IndexOf = string -> Option<int>

  predicate InRange(i: int, n: nat) { 0 - n <= i < n }

  function WithLeaf(p: Option<Party>, field: string, value: Option<string>): Option<Party> {
    if PostalAddress(p).None? || value.None? || value.value == "" then p
    else
      var a := p.value.postalAddress.value;
      var b := if field == "Ctry" then a.(country := value) else if field == "TwnNm" then a.(townName := value) else a;
      Some(p.value.(postalAddress := Some(b)))
  }

  /** One change; nothing when the index is out of range, which raises. */
  function ApplyChange(index: IndexOf, txs: seq<Tx>, change: R.Change): Option<seq<Tx>> {
    var segs := Segments(change.path);
    if |segs| < 4 || index(segs[1]).None? then Some(txs)
    else
      var i := index(segs[1]).value;
      if !InRange(i, |txs|) then None
      else
        var k := if i < 0 then |txs| + i else i;
        var tx, field := txs[k], segs[|segs| - 1];
        if segs[2] == "Cdtr" then Some(txs[k := tx.(creditor := WithLeaf(tx.creditor, field, change.after))])
        else if segs[2] == "Dbtr" then Some(txs[k := tx.(debtor := WithLeaf(tx.debtor, field, change.after))])
        else Some(txs)
  }

  function ApplyAll(index: IndexOf, txs: seq<Tx>, changes: seq<R.Change>): Option<seq<Tx>> {
    if changes == [] then Some(txs)
    else
      var r := ApplyAll(index, txs, changes[..|changes| - 1]);
      if r.None? then None else ApplyChange(index, r.value, changes[|changes| - 1])
  }

  /** `_apply_to_message` */
  method ApplyToMessage(index: IndexOf, txs: seq<Tx>, changes: seq<R.Change>) returns (updated: Option<seq<Tx>>)
    ensures updated == ApplyAll(index, txs, changes)
  {
    updated := Some(txs);
    for i := 0 to |changes|
      invariant updated == ApplyAll(index, txs, changes[..i])
    {
      assert changes[..i + 1][..i] == changes[..i];
      if updated.Some? {
        updated := ApplyChange(index, updated.value, changes[i]);
      }
    }
    assert changes[..|changes|] == changes;
  }

  // ----- no printed path carries an index where it is looked for -----

  function SideStep(side: Side): string { if side.Debtor? then "Dbtr" else "Cdtr" }

  /** Party labels are no numbers. */
  predicate LabelsAreNoNumbers(index: IndexOf) { index("Dbtr").None? && index("Cdtr").None? }

  /** The second step of the path is a party label. */
  predicate LabelSecond(change: R.Change) {
    var segs := Segments(change.path);
    |segs| >= 2 && (segs[1] == "Dbtr" || segs[1] == "Cdtr")
  }

  predicate AllLabelSecond(changes: seq<R.Change>) { forall i :: 0 <= i < |changes| ==> LabelSecond(changes[i]) }

  lemma {:induction false} NothingApplied(index: IndexOf, txs: seq<Tx>, changes: seq<R.Change>)
    requires LabelsAreNoNumbers(index) && AllLabelSecond(changes)
    ensures ApplyAll(index, txs, changes) == Some(txs)
  {
    if changes != [] {
      NothingApplied(index, txs, changes[..|changes| - 1]);
      assert LabelSecond(changes[|changes| - 1]);
    }
  }

  lemma PrefixHasNoSlash(n: nat)
    ensures '/' !in Prefix(n)
  {
    assert '/' !in "transactions[" && '/' !in "]";
    forall ch | ch in Decimal(n) ensures ch != '/' {
      assert IsDigit(ch);
    }
  }

  lemma Glued(base: string, who: string, leaf: string)
    ensures base + ("/" + who + "/PstlAdr") + "/" + leaf == base + Pacs008.PathOf([who, "PstlAdr", leaf])
  {
    Pacs008.PathOfThree(who, "PstlAdr", leaf);
    assert "/PstlAdr" == "/" + "PstlAdr";
  }

  lemma SideLabels(side: Side, prefix: string)
    ensures AddressPath(side, prefix) == prefix + ("/" + SideStep(side) + "/PstlAdr")
    ensures SideStep(side) != "" && '/' !in SideStep(side)
  {
    assert "/Dbtr/PstlAdr" == "/" + "Dbtr" + "/PstlAdr" && "/Cdtr/PstlAdr" == "/" + "Cdtr" + "/PstlAdr";
  }

  lemma ThreeSlashFree(a: string, b: string, d: string)
    requires a != "" && '/' !in a && b != "" && '/' !in b && d != "" && '/' !in d
    ensures Pacs008.SlashFree([a, b, d])
  {
    assert [d][1..] == [] && Pacs008.SlashFree([d]);
    assert [b, d][1..] == [d] && Pacs008.SlashFree([b, d]);
    assert [a, b, d][1..] == [b, d];
  }

  lemma SegmentsAfter(base: string, rest: seq<string>)
    requires base != "" && '/' !in base && Pacs008.SlashFree(rest)
    ensures Segments(base + Pacs008.PathOf(rest)) == [base] + rest
  {
    Pacs008.SplitAfterSlash(base, rest);
    Pacs008.KeepNonEmpty([base] + rest);
  }

  /** A change at a mapped address names the party second. */
  lemma MappedPath(n: nat, side: Side, leaf: string, before: Option<string>, after: Option<string>)
    requires leaf != "" && '/' !in leaf
    ensures LabelSecond(R.Change(AddressPath(side, Prefix(n)) + "/" + leaf, before, after))
  {
    var who := SideStep(side);
    SideLabels(side, Prefix(n));
    Glued(Prefix(n), who, leaf);
    PrefixHasNoSlash(n);
    assert '/' !in "PstlAdr";
    ThreeSlashFree(who, "PstlAdr", leaf);
    SegmentsAfter(Prefix(n), [who, "PstlAdr", leaf]);
  }

  lemma MappedChanges(n: nat, side: Side, a: Option<Address>, analyze: Address -> R.Analysis)
    requires a.Some? ==> a.value.sourcePath == Some(AddressPath(side, Prefix(n)))
    ensures AllLabelSecond(ChangesOfAddress(a, analyze))
  {
    if a.Some? {
      var r := analyze(a.value);
      assert '/' !in "Ctry" && '/' !in "TwnNm";
      MappedPath(n, side, "Ctry", Raw(a.value, "Ctry", a.value.country), r.countryCode);
      MappedPath(n, side, "TwnNm", Raw(a.value, "TwnNm", a.value.townName), r.townName);
    }
  }

  lemma MappedTx(c: Conversion, record: Selectors.Json, fields: seq<FieldMapping>, n: nat, analyze: Address -> R.Analysis)
    requires ValidFields(fields)
    ensures var tx := MapFields(c, record, fields, Prefix(n));
      && AllLabelSecond(ChangesOfAddress(PostalAddress(tx.debtor), analyze))
      && AllLabelSecond(ChangesOfAddress(PostalAddress(tx.creditor), analyze))
  {
    MapIsTxOf(c, record, fields, Prefix(n));
    var tx := MapFields(c, record, fields, Prefix(n));
    MappedChanges(n, Debtor, PostalAddress(tx.debtor), analyze);
    MappedChanges(n, Creditor, PostalAddress(tx.creditor), analyze);
  }

  lemma {:induction false} MappedMessage(c: Conversion, records: seq<Selectors.Json>, fields: seq<FieldMapping>,
                                         analyze: Address -> R.Analysis)
    requires ValidFields(fields)
    ensures AllLabelSecond(ChangesOfTxs(MapAll(c, records, fields), analyze))
  {
    if records != [] {
      var n := |records| - 1;
      MappedMessage(c, records[..n], fields, analyze);
      MappedTx(c, records[n], fields, n, analyze);
      var txs := MapAll(c, records, fields);
      assert txs[..|txs| - 1] == MapAll(c, records[..n], fields);
    }
  }

  /** Whatever the provider proposes for a mapped message, applying it leaves the message as it was: the
      rules judge the original once more, and the candidate repairs nothing. */
  lemma MappedRepairIsIdle(c: Conversion, records: seq<Selectors.Json>, fields: seq<FieldMapping>,
                           analyze: Address -> R.Analysis, index: IndexOf)
    requires ValidFields(fields) && LabelsAreNoNumbers(index)
    ensures var txs := MapAll(c, records, fields); ApplyAll(index, txs, ChangesOfTxs(txs, analyze)) == Some(txs)
  {
    MappedMessage(c, records, fields, analyze);
    NothingApplied(index, MapAll(c, records, fields), ChangesOfTxs(MapAll(c, records, fields), analyze));
  }

  // ----- a proposed change that is lost -----

  const ADDRESS_LINE := FieldMapping("address", MappingLaws.NameOf(PartyAddress(Creditor, Lines)), false, [], None)

  function AddressRecord(line: string): Selectors.Json { Selectors.Object([("address", Selectors.Scalar(line))]) }

  lemma AddressLineMapped(c: Conversion, line: string)
    requires line != ""
    ensures ValidFields([ADDRESS_LINE])
    ensures MapFields(c, AddressRecord(line), [ADDRESS_LINE], Prefix(0))
      == TxOf(c, map[PartyAddress(Creditor, Lines) := Selectors.Scalar(line)], Prefix(0))
  {
    EveryTargetAllowed(PartyAddress(Creditor, Lines));
    assert GetValue(AddressRecord(line), "address") == Selectors.Scalar(line);
    assert FieldValue(c, AddressRecord(line), ADDRESS_LINE) == Some(Selectors.Scalar(line));
    assert [ADDRESS_LINE][..0] == [];
    NoValues(c, Prefix(0));
    WriteTarget(c, map[], PartyAddress(Creditor, Lines), Selectors.Scalar(line), Prefix(0));
    assert map[][PartyAddress(Creditor, Lines) := Selectors.Scalar(line)]
        == map[PartyAddress(Creditor, Lines) := Selectors.Scalar(line)];
  }

  lemma OneRecord(c: Conversion, record: Selectors.Json, fields: seq<FieldMapping>)
    ensures MapAll(c, [record], fields) == [MapFields(c, record, fields, Prefix(0))]
  {
    assert [record][..0] == [];
  }

  lemma OneTxChanges(tx: Tx, analyze: Address -> R.Analysis)
    ensures ChangesOfTxs([tx], analyze)
      == ChangesOfAddress(PostalAddress(tx.debtor), analyze) + ChangesOfAddress(PostalAddress(tx.creditor), analyze)
  {
    assert [tx][..0] == [];
  }

  lemma LineAddress(c: Conversion, m: Values, prefix: string)
    requires m.Keys == {PartyAddress(Creditor, Lines)} && prefix != ""
    ensures var tx := TxOf(c, m, prefix);
      && PostalAddress(tx.debtor).None? && PostalAddress(tx.creditor).Some?
      && var a := PostalAddress(tx.creditor).value;
      a.country.None? && a.originalFields == map[] && a.sourcePath.Some? && a.sourcePath.value != ""
  {
    assert PartyName(Debtor) !in m && !AnyAddress(m, Debtor) && AnyAddress(m, Creditor);
    assert PartyAddress(Creditor, Country) !in m;
  }

  lemma CountryChange(a: Address, country: string, analyze: Address -> R.Analysis)
    requires a.country.None? && a.originalFields == map[] && a.sourcePath.Some? && a.sourcePath.value != ""
    requires country != "" && analyze(a) == R.Analysis(Some(country), None)
    ensures ChangesOfAddress(Some(a), analyze) == [R.Change(a.sourcePath.value + "/" + "Ctry", None, Some(country))]
  {
  }

  /** A record whose only field is an address line of the creditor, and a provider that reads a country
      from it: one change is proposed, and applying it leaves the address without a country. */
  lemma CountryLost(c: Conversion, line: string, country: string, analyze: Address -> R.Analysis, index: IndexOf)
    requires line != "" && country != "" && LabelsAreNoNumbers(index)
    requires forall a :: analyze(a) == R.Analysis(Some(country), None)
    ensures var txs := MapAll(c, [AddressRecord(line)], [ADDRESS_LINE]);
      && |txs| == 1 && PostalAddress(txs[0].creditor).Some? && PostalAddress(txs[0].creditor).value.country.None?
      && |ChangesOfTxs(txs, analyze)| == 1 && ChangesOfTxs(txs, analyze)[0].after == Some(country)
      && ApplyAll(index, txs, ChangesOfTxs(txs, analyze)) == Some(txs)
  {
    var record := AddressRecord(line);
    var tx := MapFields(c, record, [ADDRESS_LINE], Prefix(0));
    AddressLineMapped(c, line);
    OneRecord(c, record, [ADDRESS_LINE]);
    assert Prefix(0) != "" by {
      assert Prefix(0)[0] == 't';
    }
    LineAddress(c, map[PartyAddress(Creditor, Lines) := Selectors.Scalar(line)], Prefix(0));
    CountryChange(PostalAddress(tx.creditor).value, country, analyze);
    OneTxChanges(tx, analyze);
    MappedRepairIsIdle(c, [record], [ADDRESS_LINE], analyze, index);
  }

  // ----- the candidate -----

  datatype MappedCandidate = MappedCandidate(changes: seq<R.Change>, status: C.CandidateStatus)

  /** The non-XML branch of `generate_candidate`: its changes are reported, and its status is that of
      the unrepaired message. */
  method GenerateMappedCandidate(c: Conversion, records: seq<Selectors.Json>, fields: seq<FieldMapping>,
                                 analyze: Address -> R.Analysis, index: IndexOf, evaluate: seq<Tx> -> seq<C.Severity>)
    returns (candidate: MappedCandidate)
    requires ValidFields(fields) && LabelsAreNoNumbers(index)
    ensures var txs := MapAll(c, records, fields);
      && candidate.changes == ChangesOfTxs(txs, analyze)
      && (candidate.status == C.NeedsReview <==> candidate.changes != [] && C.Blocking(evaluate(txs)))
  {
    var txs := MapAll(c, records, fields);
    var changes := ChangesOfTxs(txs, analyze);
    if changes == [] {
      return MappedCandidate([], C.ValidatedCandidate);
    }
    MappedRepairIsIdle(c, records, fields, analyze, index);
    var updated := ApplyToMessage(index, txs, changes);
    var blocking := C.BlockingFindings(evaluate(updated.value));
    return MappedCandidate(changes, if blocking then C.NeedsReview else C.ValidatedCandidate);
  }
}
