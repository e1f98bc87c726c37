// The deterministic address provider, and what repairing a message with it converges to.
module CloudNova {
  import opened Strings
  import opened Words
  import Countries
  import opened XmlTree
  import opened Pacs008
  import opened RepairLens
  import opened RepairEngine

  /** The reference tables and the Unicode character functions the provider works with. */
  datatype Reference = Reference(
    codes: set<string>, names: map<string, string>,
    nfkc: string -> string, upper: string -> string, isUpper: char -> bool)

  /** Codes are trimmed text in upper case, and every country name stands for a code. */
  ghost predicate Sound(g: Reference) {
    && (forall c :: c in g.codes ==> c != "" && Trimmed(c) && g.upper(c) == c)
    && (forall n :: n in g.names ==> g.names[n] in g.codes)
  }

  /** The curated ISO 3166-1 tables with given character functions. */
  function Curated(nfkc: string -> string, upper: string -> string, isUpper: char -> bool): Reference {
    Reference(Countries.VALID_COUNTRY_CODES, Countries.COUNTRY_NAME_TO_CODE, nfkc, upper, isUpper)
  }

  /** The curated tables are sound for every upper-casing that leaves pairs of capitals alone. */
  lemma CuratedIsSound(nfkc: string -> string, upper: string -> string, isUpper: char -> bool)
    requires forall s: string :: Countries.IsCode(s) ==> upper(s) == s
    ensures Sound(Curated(nfkc, upper, isUpper))
  {
    forall c | c in Countries.VALID_COUNTRY_CODES ensures c != "" && Trimmed(c) && upper(c) == c {
      Countries.CodesAreLetters(c);
    }
    forall n | n in Countries.COUNTRY_NAME_TO_CODE
      ensures Countries.COUNTRY_NAME_TO_CODE[n] in Countries.VALID_COUNTRY_CODES
    {
      Countries.NamesHaveCodes(n);
    }
  }

  // ----- countries and towns in address lines -----

  /** `normalize_country_name` */
  function CountryByName(g: Reference, name: string): Option<string> {
    var key := g.upper(Strip(name));
    if key in g.names then Some(g.names[key]) else None
  }

  function CountryOfToken(g: Reference, token: string): Option<string> {
    var w := NormalizeWhitespace(g.nfkc(token));
    if g.upper(w) in g.codes then Some(g.upper(w)) else CountryByName(g, w)
  }

  /** A part without its surrounding blanks, unless that leaves nothing. */
  function TokenIn(part: string): seq<string> { if Strip(part) == "" then [] else [Strip(part)] }

  function StripAll(parts: seq<string>): seq<string> {
    if parts == [] then [] else TokenIn(parts[0]) + StripAll(parts[1..])
  }

  /** `_split_commas` */
  function Tokens(line: string): seq<string> { StripAll(Split(line, ',')) }

  function CountryInTokens(g: Reference, tokens: seq<string>): Option<string> {
    if tokens == [] then None
    else if CountryOfToken(g, tokens[0]).Some? then CountryOfToken(g, tokens[0])
    else CountryInTokens(g, tokens[1..])
  }

  function CountryInLines(g: Reference, lines: seq<string>): Option<string> {
    if lines == [] then None
    else if CountryInTokens(g, Tokens(lines[0])).Some? then CountryInTokens(g, Tokens(lines[0]))
    else CountryInLines(g, lines[1..])
  }

  /** `extract_country_from_lines` */
  method ExtractCountryFromLines(g: Reference, lines: seq<string>) returns (code: Option<string>)
    ensures code == CountryInLines(g, lines)
  {
    for i := 0 to |lines|
      invariant CountryInLines(g, lines) == CountryInLines(g, lines[i..])
    {
      var found := FirstCountry(g, Tokens(lines[i]));
      if found.Some? {
        return found;
      }
    }
    return None;
  }

  /** The inner loop, over the tokens of one line. */
  method FirstCountry(g: Reference, tokens: seq<string>) returns (code: Option<string>)
    ensures code == CountryInTokens(g, tokens)
  {
    for k := 0 to |tokens|
      invariant CountryInTokens(g, tokens) == CountryInTokens(g, tokens[k..])
    {
      var c := CountryOfToken(g, tokens[k]);
      if c.Some? {
        return c;
      }
    }
    return None;
  }

  predicate IsCountryToken(g: Reference, token: string, code: Option<string>) {
    var w := NormalizeWhitespace(token);
    || g.upper(w) in g.codes
    || CountryByName(g, w).Some?
    || (code.Some? && code.value != "" && g.upper(w) == code.value)
  }

  /** Token `i` is a country and the token before it looks like a town. */
  predicate TownBefore(g: Reference, tokens: seq<string>, i: nat, code: Option<string>)
    requires i < |tokens|
  {
    && i > 0 && IsCountryToken(g, tokens[i], code)
    && 2 <= |tokens[i - 1]| <= 35 && g.isUpper(tokens[i - 1][0])
  }

  function TownInTokens(g: Reference, tokens: seq<string>, i: nat, code: Option<string>): Option<string>
    requires i <= |tokens|
    decreases |tokens| - i
  {
    if i == |tokens| then None
    else if TownBefore(g, tokens, i, code) then Some(tokens[i - 1])
    else TownInTokens(g, tokens, i + 1, code)
  }

  function TownInLines(g: Reference, lines: seq<string>, code: Option<string>): Option<string> {
    if lines == [] then None
    else
      var town := TownInTokens(g, Tokens(lines[0]), 0, code);
      if town.Some? then town else TownInLines(g, lines[1..], code)
  }

  /** `extract_town_from_lines` */
  method ExtractTownFromLines(g: Reference, lines: seq<string>, code: Option<string>) returns (town: Option<string>)
    ensures town == TownInLines(g, lines, code)
  {
    for i := 0 to |lines|
      invariant TownInLines(g, lines, code) == TownInLines(g, lines[i..], code)
    {
      var found := FirstTown(g, Tokens(lines[i]), code);
      if found.Some? {
        return found;
      }
    }
    return None;
  }

  /** The inner loop, over the tokens of one line. */
  method FirstTown(g: Reference, tokens: seq<string>, code: Option<string>) returns (town: Option<string>)
    ensures town == TownInTokens(g, tokens, 0, code)
  {
    for k := 0 to |tokens|
      invariant TownInTokens(g, tokens, 0, code) == TownInTokens(g, tokens, k, code)
    {
      if IsCountryToken(g, tokens[k], code) {
        if k > 0 {
          var candidate := tokens[k - 1];
          if 2 <= |candidate| <= 35 && g.isUpper(candidate[0]) {
            return Some(candidate);
          }
        }
      }
    }
    return None;
  }

  predicate IsToken(s: string) { s != "" && Trimmed(s) }

  lemma TokenInIs(part: string)
    ensures |TokenIn(part)| <= 1 && forall x :: x in TokenIn(part) ==> IsToken(x)
  {
  }

  lemma {:induction false} StripAllTrims(parts: seq<string>)
    ensures forall x :: x in StripAll(parts) ==> IsToken(x)
  {
    if parts != [] {
      TokenInIs(parts[0]);
      StripAllTrims(parts[1..]);
    }
  }

  lemma {:induction false} TownTokenTrimmed(g: Reference, line: string, i: nat, code: Option<string>)
    requires i <= |Tokens(line)| && TownInTokens(g, Tokens(line), i, code).Some?
    ensures IsToken(TownInTokens(g, Tokens(line), i, code).value)
    decreases |Tokens(line)| - i
  {
    if TownBefore(g, Tokens(line), i, code) {
      StripAllTrims(Split(line, ','));
    } else {
      TownTokenTrimmed(g, line, i + 1, code);
    }
  }

  /** A town found in the lines is trimmed text. */
  lemma {:induction false} TownInLinesTrimmed(g: Reference, lines: seq<string>, code: Option<string>)
    requires TownInLines(g, lines, code).Some?
    ensures var town := TownInLines(g, lines, code).value; town != "" && Trimmed(town)
  {
    if TownInTokens(g, Tokens(lines[0]), 0, code).Some? {
      TownTokenTrimmed(g, lines[0], 0, code);
    } else {
      TownInLinesTrimmed(g, lines[1..], code);
    }
  }

  lemma {:induction false} CountryInTokensIsCode(g: Reference, tokens: seq<string>)
    requires Sound(g) && CountryInTokens(g, tokens).Some?
    ensures CountryInTokens(g, tokens).value in g.codes
  {
    if CountryOfToken(g, tokens[0]).None? {
      CountryInTokensIsCode(g, tokens[1..]);
    }
  }

  lemma {:induction false} CountryInLinesIsCode(g: Reference, lines: seq<string>)
    requires Sound(g) && CountryInLines(g, lines).Some?
    ensures CountryInLines(g, lines).value in g.codes
  {
    if CountryInTokens(g, Tokens(lines[0])).Some? {
      CountryInTokensIsCode(g, Tokens(lines[0]));
    } else {
      CountryInLinesIsCode(g, lines[1..]);
    }
  }

  // ----- analysis of one address -----

  datatype Readiness = Ready | Repairable | ReviewRequired | Unresolved

  datatype Level = High | Medium | Low

  predicate Present(value: Option<string>) { value.Some? && value.value != "" }

  function SourceTown(a: PostalAddress): Option<string> {
    if Present(a.townName) then Some(NormalizeWhitespace(a.townName.value)) else None
  }

  predicate CountryOk(g: Reference, a: PostalAddress) {
    Present(a.country) && a.country.value in g.codes
  }

  /** A country read from a name, or from the lines when the field is missing. */
  function DerivedCountry(g: Reference, a: PostalAddress): Option<string> {
    if Present(a.country) then CountryByName(g, a.country.value) else CountryInLines(g, a.addressLines)
  }

  function CountryCode(g: Reference, a: PostalAddress): Option<string> {
    if CountryOk(g, a) then Some(g.upper(a.country.value)) else DerivedCountry(g, a)
  }

  function TownName(g: Reference, a: PostalAddress): Option<string> {
    if Present(SourceTown(a)) then SourceTown(a) else TownInLines(g, a.addressLines, CountryCode(g, a))
  }

  /** The provider as the repair engine sees it. */
  function Provider(g: Reference): PostalAddress -> Analysis {
    a => Analysis(CountryCode(g, a), TownName(g, a))
  }

  /** `classify_readiness` */
  function ClassifyReadiness(countryOk: bool, townOk: bool, countryRepairable: bool, townRepairable: bool, hasSignal: bool)
    : Readiness
  {
    if countryOk && townOk then Ready
    else if countryRepairable || townRepairable then Repairable
    else if hasSignal then ReviewRequired
    else Unresolved
  }

  /** `_overall_level` */
  function OverallLevel(countryOk: bool, countryRepairable: bool, townOk: bool, townRepairable: bool): Level {
    if (countryOk || countryRepairable) && (townOk || townRepairable) then High
    else if countryOk || countryRepairable || townOk || townRepairable then Medium
    else Low
  }

  function ReadinessOf(g: Reference, a: PostalAddress): Readiness {
    ClassifyReadiness(
      CountryOk(g, a), Present(SourceTown(a)),
      !CountryOk(g, a) && CountryCode(g, a).Some?, !Present(SourceTown(a)) && TownName(g, a).Some?,
      Present(a.country) || Present(SourceTown(a)) || a.addressLines != [])
  }

  /** `CloudNovaAddressProvider.analyze` */
  method Analyze(g: Reference, a: PostalAddress) returns (r: Analysis, readiness: Readiness, level: Level)
    requires Sound(g)
    ensures r == Provider(g)(a)
    ensures readiness == ReadinessOf(g, a)
    ensures level == High <==> r.countryCode.Some? && r.townName.Some?
    ensures level == Low <==> r.countryCode.None? && r.townName.None?
  {
    var sourceTown: Option<string> := None;
    if Present(a.townName) {
      sourceTown := Some(NormalizeWhitespace(a.townName.value));
    }
    var code: Option<string> := None;
    var countryOk, countryRepairable := false, false;
    if Present(a.country) {
      if a.country.value in g.codes {
        code, countryOk := Some(g.upper(a.country.value)), true;
      } else {
        code := CountryByName(g, a.country.value);
        countryRepairable := Present(code);
      }
    } else {
      code := ExtractCountryFromLines(g, a.addressLines);
      if code.Some? {
        CountryInLinesIsCode(g, a.addressLines);
      }
      countryRepairable := Present(code);
    }
    var town: Option<string> := None;
    var townOk, townRepairable := false, false;
    if Present(sourceTown) {
      town, townOk := sourceTown, true;
    } else {
      town := ExtractTownFromLines(g, a.addressLines, code);
      if town.Some? {
        TownInLinesTrimmed(g, a.addressLines, code);
      }
      townRepairable := Present(town);
    }
    var signal := Present(a.country) || Present(sourceTown) || a.addressLines != [];
    readiness := ClassifyReadiness(countryOk, townOk, countryRepairable, townRepairable, signal);
    level := OverallLevel(countryOk, countryRepairable, townOk, townRepairable);
    r := Analysis(code, town);
  }

  /** Whatever the input, a resolved country is a known code and a resolved town is trimmed text. */
  lemma ResolvedValues(g: Reference, a: PostalAddress)
    requires Sound(g)
    ensures CountryCode(g, a).Some? ==> CountryCode(g, a).value in g.codes
    ensures TownName(g, a).Some? ==> TownName(g, a).value != "" && Trimmed(TownName(g, a).value)
  {
    if !Present(a.country) && CountryCode(g, a).Some? {
      CountryInLinesIsCode(g, a.addressLines);
    }
    if Present(SourceTown(a)) {
      NormalizeTrimmed(a.townName.value);
    } else if TownName(g, a).Some? {
      TownInLinesTrimmed(g, a.addressLines, CountryCode(g, a));
    }
  }

  // ----- repeating the repair of one address -----

  /** A field as the adapter fills it. */
  predicate Kept(value: Option<string>) { value.Some? ==> value.value != "" && Trimmed(value.value) }

  /** An address read from a document: both fields agree with the original ones, trimmed. */
  predicate FromDocument(a: PostalAddress) {
    && a.country == Get(a.originalFields, "Ctry") && a.townName == Get(a.originalFields, "TwnNm")
    && Kept(a.country) && Kept(a.townName)
  }

  /** One round of analysis and repair. */
  function Round(g: Reference, a: PostalAddress): PostalAddress { RepairedAddress(a, Provider(g)(a)) }

  predicate NoProposal(g: Reference, a: PostalAddress) {
    !Proposes(a, Provider(g)(a), Ctry) && !Proposes(a, Provider(g)(a), TwnNm)
  }

  lemma KeptValue(value: string)
    requires value != "" && Trimmed(value)
    ensures TextValue(Some(value)) == Some(value)
  {
  }

  lemma LeafNames()
    ensures LeafName(Ctry) == "Ctry" && LeafName(TwnNm) == "TwnNm" && "Ctry" != "TwnNm"
  {
    assert "Ctry"[0] != "TwnNm"[0];
  }

  /** Replacing a leaf by a trimmed value keeps both field views in step. */
  lemma ReplacedLeaf(a: PostalAddress, original: PostalAddress, r: Analysis, leaf: Leaf)
    requires FromDocument(a) && Kept(Resolved(r, leaf))
    ensures var b := RepairedLeaf(a, original, r, leaf); var hit := Proposes(original, r, leaf);
      && FromDocument(b) && b.addressLines == a.addressLines && b.sourcePath == a.sourcePath
      && b.country == (if hit && leaf.Ctry? then Resolved(r, leaf) else a.country)
      && b.townName == (if hit && leaf.TwnNm? then Resolved(r, leaf) else a.townName)
  {
    LeafNames();
    if Proposes(original, r, leaf) {
      KeptValue(Resolved(r, leaf).value);
    }
  }

  /** One round writes the resolved country and town, and nothing else. */
  lemma RoundFields(g: Reference, a: PostalAddress)
    requires Sound(g) && FromDocument(a)
    ensures var b := Round(g, a);
      && FromDocument(b) && b.addressLines == a.addressLines
      && b.country == (if CountryCode(g, a).Some? then CountryCode(g, a) else a.country)
      && b.townName == TownName(g, a)
  {
    ResolvedValues(g, a);
    var r := Provider(g)(a);
    ReplacedLeaf(a, a, r, Ctry);
    ReplacedLeaf(RepairedLeaf(a, a, r, Ctry), a, r, TwnNm);
    if a.townName.Some? {
      NormalizeTrimmed(a.townName.value);
    }
  }

  /** Analysis of a repaired address: the country stands, the town loses its repeated whitespace. */
  lemma AnalyzeRepaired(g: Reference, a: PostalAddress)
    requires Sound(g) && FromDocument(a)
    ensures CountryCode(g, Round(g, a)) == CountryCode(g, a)
    ensures TownName(g, Round(g, a))
      == if TownName(g, a).Some? then Some(NormalizeWhitespace(TownName(g, a).value)) else None
    ensures CountryOk(g, Round(g, a)) <==> CountryCode(g, a).Some?
    ensures Present(SourceTown(Round(g, a))) <==> TownName(g, a).Some?
  {
    RoundFields(g, a);
    ResolvedValues(g, a);
    if TownName(g, a).Some? {
      NormalizeTrimmed(TownName(g, a).value);
    }
  }

  /** The town was read from an address line that holds other than single blanks. */
  predicate LineTownWithGaps(g: Reference, a: PostalAddress) {
    a.townName.None? && TownName(g, a).Some? && NormalizeWhitespace(TownName(g, a).value) != TownName(g, a).value
  }

  lemma ProposalsAre(g: Reference, a: PostalAddress)
    requires Sound(g) && FromDocument(a)
    ensures NoProposal(g, a)
      <==> (CountryCode(g, a).Some? ==> a.country == CountryCode(g, a)) && (TownName(g, a).Some? ==> a.townName == TownName(g, a))
  {
    ResolvedValues(g, a);
  }

  /** The second round changes an address exactly when its town was read from a line with gaps. */
  lemma SecondRound(g: Reference, a: PostalAddress)
    requires Sound(g) && FromDocument(a)
    ensures NoProposal(g, Round(g, a)) <==> !LineTownWithGaps(g, a)
  {
    RoundFields(g, a);
    AnalyzeRepaired(g, a);
    ProposalsAre(g, Round(g, a));
    if a.townName.Some? {
      NormalizeTrimmed(a.townName.value);
      NormalizeIdempotent(a.townName.value);
    }
  }

  /** After two rounds nothing is proposed any more. */
  lemma FixpointAfterTwoRounds(g: Reference, a: PostalAddress)
    requires Sound(g) && FromDocument(a)
    ensures NoProposal(g, Round(g, Round(g, a)))
  {
    RoundFields(g, a);
    SecondRound(g, Round(g, a));
    if TownName(g, a).Some? {
      NormalizeIdempotent(TownName(g, a).value);
    }
    AnalyzeRepaired(g, a);
  }

  /** One round settles readiness: nothing stays repairable, and the address is ready exactly when
      both its country and its town were resolved. */
  lemma ReadinessAfterRepair(g: Reference, a: PostalAddress)
    requires Sound(g) && FromDocument(a)
    ensures ReadinessOf(g, Round(g, a)) != Repairable
    ensures ReadinessOf(g, Round(g, a)) == Ready <==> CountryCode(g, a).Some? && TownName(g, a).Some?
  {
    AnalyzeRepaired(g, a);
  }

  // ----- repeating the repair of a document -----

  predicate SlotFromDocument(x: Transaction, slot: Slot) {
    AddressOf(x, slot).Some? ==> FromDocument(AddressOf(x, slot).value) && AddressOf(x, slot).value.sourcePath != ""
  }

  ghost predicate TxFromDocument(x: Transaction) { forall slot :: SlotFromDocument(x, slot) }

  ghost predicate MessageFromDocument(msg: Message) {
    forall i :: 0 <= i < |msg.transactions| ==> TxFromDocument(msg.transactions[i])
  }

  lemma TextKept(t: Tree, el: Option<Id>)
    ensures Kept(Text(t, el))
  {
  }

  lemma {:induction false} OriginalFieldsKept(t: Tree, el: Id, names: seq<string>)
    ensures forall name :: Kept(Get(OriginalFields(t, el, names), name))
  {
    if names != [] {
      OriginalFieldsKept(t, el, names[..|names| - 1]);
      var rest, last := OriginalFields(t, el, names[..|names| - 1]), names[|names| - 1];
      TextKept(t, Child(t, Some(el), last));
      forall name ensures Kept(Get(OriginalFields(t, el, names), name)) {
        assert Kept(Get(rest, name));
      }
    }
  }

  lemma SlotIsFromDocument(t: Tree, i: nat, slot: Slot)
    requires i < |TxElements(t)|
    ensures SlotFromDocument(MapTransaction(t, TxElements(t)[i], i), slot)
  {
    MappedAt(t, i);
    MappedPathsPrinted(t, i);
    SlotAddress(t, TxElements(t)[i], i, slot);
    AddressIsFromDocument(t, AddressNode(t, TxElements(t)[i], slot), SlotPath(i, slot));
  }

  lemma AddressIsFromDocument(t: Tree, el: Option<Id>, path: string)
    ensures var a := MapAddress(t, el, path); a.Some? ==> FromDocument(a.value) && a.value.sourcePath == path
  {
    if el.Some? {
      OriginalFieldsKept(t, el.value, ADDRESS_FIELDS);
    }
  }

  /** Every address the adapter reads is such an address. */
  lemma MappedFromDocument(t: Tree)
    ensures MessageFromDocument(MapMessage(t))
  {
    forall i, slot | 0 <= i < |MapMessage(t).transactions|
      ensures SlotFromDocument(MapMessage(t).transactions[i], slot)
    {
      MappedAt(t, i);
      SlotIsFromDocument(t, i, slot);
    }
  }

  lemma RepairedSlotIs(x: Transaction, analyze: PostalAddress -> Analysis, slot: Slot)
    ensures AddressOf(RepairedTx(x, analyze), slot)
      == if AddressOf(x, slot).None? then None
         else Some(RepairedAddress(AddressOf(x, slot).value, analyze(AddressOf(x, slot).value)))
  {
  }

  predicate SlotSettled(g: Reference, x: Transaction, slot: Slot) {
    AddressOf(x, slot).Some? ==> NoProposal(g, AddressOf(x, slot).value)
  }

  ghost predicate TxSettled(g: Reference, x: Transaction) { forall slot :: SlotSettled(g, x, slot) }

  ghost predicate Settled(g: Reference, msg: Message) {
    forall i :: 0 <= i < |msg.transactions| ==> TxSettled(g, msg.transactions[i])
  }

  lemma {:induction false} NoEditsOfSlots(g: Reference, tx: nat, x: Transaction, slots: seq<Slot>)
    requires forall slot :: slot in slots ==> SlotSettled(g, x, slot)
    ensures EditsOfSlots(tx, x, slots, Provider(g)) == []
  {
    if slots != [] {
      NoEditsOfSlots(g, tx, x, slots[..|slots| - 1]);
      assert slots[|slots| - 1] in slots;
    }
  }

  lemma {:induction false} SomeEditOfSlots(g: Reference, tx: nat, x: Transaction, slots: seq<Slot>, slot: Slot)
    requires slot in slots && SlotFromDocument(x, slot) && !SlotSettled(g, x, slot)
    ensures EditsOfSlots(tx, x, slots, Provider(g)) != []
  {
    if slots[|slots| - 1] != slot {
      SomeEditOfSlots(g, tx, x, slots[..|slots| - 1], slot);
    }
  }

  lemma SlotListed(slot: Slot)
    ensures slot in SLOTS
  {
    assert SLOTS[0] == Dbtr && SLOTS[1] == Cdtr && SLOTS[2] == DbtrAgt && SLOTS[3] == CdtrAgt;
  }

  lemma TxEdits(g: Reference, tx: nat, x: Transaction)
    requires TxFromDocument(x)
    ensures EditsOfSlots(tx, x, SLOTS, Provider(g)) == [] <==> TxSettled(g, x)
  {
    if TxSettled(g, x) {
      NoEditsOfSlots(g, tx, x, SLOTS);
    } else {
      var slot :| !SlotSettled(g, x, slot);
      SlotListed(slot);
      SomeEditOfSlots(g, tx, x, SLOTS, slot);
    }
  }

  lemma {:induction false} NoEditsOfTxs(g: Reference, txs: seq<Transaction>)
    requires forall i :: 0 <= i < |txs| ==> TxSettled(g, txs[i])
    ensures EditsOfTxs(txs, SLOTS, Provider(g)) == []
  {
    if txs != [] {
      var n := |txs| - 1;
      NoEditsOfTxs(g, txs[..n]);
      NoEditsOfSlots(g, n, txs[n], SLOTS);
    }
  }

  lemma {:induction false} SomeEditOfTxs(g: Reference, txs: seq<Transaction>, i: nat)
    requires i < |txs| && TxFromDocument(txs[i]) && !TxSettled(g, txs[i])
    ensures EditsOfTxs(txs, SLOTS, Provider(g)) != []
  {
    var n := |txs| - 1;
    if i < n {
      SomeEditOfTxs(g, txs[..n], i);
    } else {
      TxEdits(g, n, txs[n]);
    }
  }

  /** A message has no change to propose exactly when each of its addresses has none. */
  lemma MessageEdits(g: Reference, msg: Message)
    requires MessageFromDocument(msg)
    ensures EditsOf(msg, Provider(g)) == [] <==> Settled(g, msg)
  {
    var txs := msg.transactions;
    if Settled(g, msg) {
      NoEditsOfTxs(g, txs);
    } else {
      var i :| 0 <= i < |txs| && !TxSettled(g, txs[i]);
      SomeEditOfTxs(g, txs, i);
    }
  }

  /** The document after one repair pass with this provider. */
  function RepairPass(g: Reference, t: Tree): Tree
    requires WellFormedChanges(ChangesOf(EditsOf(MapMessage(t), Provider(g))))
  {
    ApplyAll(t, ChangesOf(EditsOf(MapMessage(t), Provider(g)))).0
  }

  lemma SlotAfterPass(g: Reference, t: Tree, t': Tree, i: nat, slot: Slot)
    requires MapMessage(t') == RepairedMessage(MapMessage(t), Provider(g)) && i < |MapMessage(t).transactions|
    ensures |MapMessage(t').transactions| == |MapMessage(t).transactions|
    ensures var a := AddressOf(MapMessage(t).transactions[i], slot);
      AddressOf(MapMessage(t').transactions[i], slot) == if a.None? then None else Some(Round(g, a.value))
  {
    RepairedSlotIs(MapMessage(t).transactions[i], Provider(g), slot);
  }

  /** Some address of the message takes its town from a line with gaps. */
  ghost predicate AnyLineTownWithGaps(g: Reference, msg: Message) {
    exists i, slot :: 0 <= i < |msg.transactions| && SlotWithGaps(g, msg.transactions[i], slot)
  }

  predicate SlotWithGaps(g: Reference, x: Transaction, slot: Slot) {
    AddressOf(x, slot).Some? && LineTownWithGaps(g, AddressOf(x, slot).value)
  }

  lemma SlotSecondRound(g: Reference, t: Tree, t': Tree, i: nat, slot: Slot)
    requires Sound(g) && MapMessage(t') == RepairedMessage(MapMessage(t), Provider(g)) && i < |MapMessage(t).transactions|
    ensures |MapMessage(t').transactions| == |MapMessage(t).transactions|
    ensures SlotSettled(g, MapMessage(t').transactions[i], slot) <==> !SlotWithGaps(g, MapMessage(t).transactions[i], slot)
  {
    MappedFromDocument(t);
    SlotAfterPass(g, t, t', i, slot);
    var x := MapMessage(t).transactions[i];
    assert TxFromDocument(x) && SlotFromDocument(x, slot);
    if AddressOf(x, slot).Some? {
      SecondRound(g, AddressOf(x, slot).value);
    }
  }

  /** After one pass a second one has something to change exactly when a town was read from a line
      with gaps. */
  lemma OnePassSuffices(g: Reference, t: Tree)
    requires Sound(g) && Valid(t) && IsDocument(t)
    ensures WellFormedChanges(ChangesOf(EditsOf(MapMessage(t), Provider(g))))
    ensures EditsOf(MapMessage(RepairPass(g, t)), Provider(g)) == [] <==> !AnyLineTownWithGaps(g, MapMessage(t))
  {
    RepairIsLens(t, Provider(g));
    var t' := RepairPass(g, t);
    MappedFromDocument(t');
    MessageEdits(g, MapMessage(t'));
    forall i, slot | 0 <= i < |MapMessage(t).transactions|
      ensures |MapMessage(t').transactions| == |MapMessage(t).transactions|
      ensures SlotSettled(g, MapMessage(t').transactions[i], slot) <==> !SlotWithGaps(g, MapMessage(t).transactions[i], slot)
    {
      SlotSecondRound(g, t, t', i, slot);
    }
    assert |MapMessage(t').transactions| == |MapMessage(t).transactions|;
    if AnyLineTownWithGaps(g, MapMessage(t)) {
      var i, slot :| 0 <= i < |MapMessage(t).transactions| && SlotWithGaps(g, MapMessage(t).transactions[i], slot);
      assert !SlotSettled(g, MapMessage(t').transactions[i], slot);
      assert !TxSettled(g, MapMessage(t').transactions[i]);
    } else {
      forall i | 0 <= i < |MapMessage(t').transactions| ensures TxSettled(g, MapMessage(t').transactions[i]) {
        forall slot ensures SlotSettled(g, MapMessage(t').transactions[i], slot) {
          assert !SlotWithGaps(g, MapMessage(t).transactions[i], slot);
        }
      }
    }
  }

  lemma SlotGapsClosed(g: Reference, t: Tree, t': Tree, i: nat, slot: Slot)
    requires Sound(g) && MapMessage(t') == RepairedMessage(MapMessage(t), Provider(g)) && i < |MapMessage(t').transactions|
    ensures !SlotWithGaps(g, MapMessage(t').transactions[i], slot)
  {
    MappedFromDocument(t);
    SlotAfterPass(g, t, t', i, slot);
    var x := MapMessage(t).transactions[i];
    assert TxFromDocument(x) && SlotFromDocument(x, slot);
    if AddressOf(x, slot).Some? {
      var a := AddressOf(x, slot).value;
      RoundFields(g, a);
      AnalyzeRepaired(g, a);
    }
  }

  /** Two passes always reach a document for which no change is proposed. */
  lemma TwoPassesSuffice(g: Reference, t: Tree)
    requires Sound(g) && Valid(t) && IsDocument(t)
    ensures WellFormedChanges(ChangesOf(EditsOf(MapMessage(t), Provider(g))))
    ensures var t1 := RepairPass(g, t);
      && WellFormedChanges(ChangesOf(EditsOf(MapMessage(t1), Provider(g))))
      && EditsOf(MapMessage(RepairPass(g, t1)), Provider(g)) == []
  {
    RepairIsLens(t, Provider(g));
    var t1 := RepairPass(g, t);
    OnePassSuffices(g, t1);
    forall i, slot | 0 <= i < |MapMessage(t1).transactions| ensures !SlotWithGaps(g, MapMessage(t1).transactions[i], slot) {
      SlotGapsClosed(g, t, t1, i, slot);
    }
  }
}
