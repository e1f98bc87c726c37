// A small document for which one repair pass is not enough, and one that nothing was checked of.
module RepairExample {
  import opened Strings
  import opened Words
  import opened Sorting
  import opened XmlTree
  import opened Pacs008
  import opened RepairEngine
  import opened CloudNova
  import opened XmlRepair
  import Candidates
  import Countries
  import RepairLens

  /** An address line whose town holds two blanks. */
  const LINE: string := "A  B,DE"

  // ----- the town of that line -----

  lemma TokensOfLine(x: string, y: string)
    requires ',' !in x && x != "" && Trimmed(x)
    requires ',' !in y && y != "" && Trimmed(y)
    ensures Tokens(x + "," + y) == [x, y]
  {
    SplitCons(x, ',', y);
    SplitPlain(y, ',');
    TwoTokens(x, y);
  }

  lemma TownTrimmed()
    ensures ',' !in "A  B" && Trimmed("A  B")
  {
    assert "A  B"[3] == 'B';
  }

  lemma CodeTrimmed()
    ensures ',' !in "DE" && Trimmed("DE")
  {
    assert "DE"[1] == 'E';
  }

  lemma LineParts()
    ensures LINE == "A  B" + "," + "DE"
  {
  }

  lemma LineTokens()
    ensures Tokens(LINE) == ["A  B", "DE"]
  {
    TownTrimmed();
    CodeTrimmed();
    TokensOfLine("A  B", "DE");
    LineParts();
  }

  lemma TwoTokens(x: string, y: string)
    requires x != "" && Trimmed(x) && y != "" && Trimmed(y)
    ensures StripAll([x, y]) == [x, y]
  {
    assert [x, y][1..] == [y] && [y][1..] == [];
    assert StripAll([y]) == [y];
  }

  lemma OneWord(w: string)
    requires IsWord(w)
    ensures SplitWords(w) == [w]
  {
    SplitFirstWord(w, "");
    assert w + "" == w;
  }

  /** Normalizing shortens the town by a blank. */
  lemma TownShrinks()
    ensures NormalizeWhitespace("A  B") != "A  B"
  {
    assert "A  B" == "A" + "  B";
    SplitFirstWord("A", "  B");
    assert "  B"[1..] == " B" && " B"[1..] == "B";
    OneWord("B");
    assert SplitWords("A  B") == ["A", "B"];
    assert ["A", "B"][1..] == ["B"];
    assert Join(["A", "B"], " ") == "A" + " " + "B";
  }

  lemma TownOfTwo(g: CloudNova.Reference, x: string, y: string, code: Option<string>)
    requires 2 <= |x| <= 35 && g.isUpper(x[0]) && IsCountryToken(g, y, code)
    ensures TownInTokens(g, [x, y], 0, code) == Some(x)
  {
    assert TownBefore(g, [x, y], 1, code);
  }

  lemma DeIsCountry(g: CloudNova.Reference, code: Option<string>)
    requires g.codes == Countries.VALID_COUNTRY_CODES && g.upper("DE") == "DE"
    ensures IsCountryToken(g, "DE", code)
  {
    OneWord("DE");
    assert "DE" in Countries.CODES_D_H;
  }

  lemma TownOfLine(g: CloudNova.Reference, code: Option<string>)
    requires g.codes == Countries.VALID_COUNTRY_CODES && g.upper("DE") == "DE" && g.isUpper('A')
    ensures TownInLines(g, [LINE], code) == Some("A  B")
  {
    LineTokens();
    DeIsCountry(g, code);
    TownOfTwo(g, "A  B", "DE", code);
  }

  // ----- the document -----

  const NAMES: seq<string> := ["Document", "FIToFICstmrCdtTrf", "CdtTrfTxInf", "Dbtr", "PstlAdr", "AdrLine"]

  type Six = s: seq<string> | |s| == 6 witness ["", "", "", "", "", ""]

  const IDS: set<Id> := {Parsed(0), Parsed(1), Parsed(2), Parsed(3), Parsed(4), Parsed(5)}

  function TagOf(names: Six, id: Id): Tag { if id.Parsed? && id.n < 6 then Named("", names[id.n]) else Special }

  function KidsAt(id: Id): seq<Id> { if id.Parsed? && id.n < 5 then [Parsed(id.n + 1)] else [] }

  function ParentAt(id: Id): Id { if id.Parsed? && id.n > 0 then Parsed(id.n - 1) else id }

  /** One element of each name, each the only child of the one before. */
  function Chained(names: Six, line: string): Tree {
    Tree(Parsed(0),
         map id | id in IDS :: TagOf(names, id),
         map id | id in IDS :: map[],
         map id | id in IDS :: if id == Parsed(5) then Some(line) else None,
         map id | id in IDS :: KidsAt(id),
         map id | id in IDS && id != Parsed(0) :: ParentAt(id))
  }

  lemma ChainedLists(t: Tree, names: Six, line: string)
    requires t == Chained(names, line)
    ensures ListsDistinct(t)
  {
    forall p | p in t.kids ensures Distinct(t.kids[p]) {
      assert t.kids[p] == KidsAt(p);
    }
  }

  lemma ChainedParents(t: Tree, names: Six, line: string, p: Id, c: Id)
    requires t == Chained(names, line) && p in t.kids && c in t.kids[p]
    ensures c in t.tags && c in t.parent && t.parent[c] == p
  {
    assert t.kids[p] == KidsAt(p) && c == Parsed(p.n + 1);
  }

  lemma ChainedDomains(t: Tree, names: Six, line: string)
    requires t == Chained(names, line)
    ensures t.root in t.tags && t.tags.Keys == IDS && t.attrs.Keys == IDS && t.text.Keys == IDS && t.kids.Keys == IDS
  {
    assert Parsed(0) in IDS;
  }

  /** A document in which nothing was created yet. */
  lemma ParsedValid(t: Tree, ids: set<Id>)
    requires t.root in ids && t.tags.Keys == ids && t.attrs.Keys == ids && t.text.Keys == ids && t.kids.Keys == ids
    requires forall id :: id in ids ==> id.Parsed?
    requires forall p, c :: p in t.kids && c in t.kids[p] ==> c in t.tags && c in t.parent && t.parent[c] == p
    requires ListsDistinct(t)
    ensures Valid(t)
  {
    forall id | id in t.tags ensures Counted(t, id) {
      assert id in ids;
    }
  }

  lemma ChainedValid(t: Tree, names: Six, line: string)
    requires t == Chained(names, line)
    ensures Valid(t)
  {
    ChainedLists(t, names, line);
    ChainedDomains(t, names, line);
    forall p, c | p in t.kids && c in t.kids[p] ensures c in t.tags && c in t.parent && t.parent[c] == p {
      ChainedParents(t, names, line, p, c);
    }
    ParsedValid(t, IDS);
  }

  lemma ChainedKids(names: Six, line: string, n: nat, name: string)
    requires n < 6
    ensures KidsNamed(Chained(names, line), Parsed(n), name)
      == if n < 5 && names[n + 1] == name then [Parsed(n + 1)] else []
  {
    var t := Chained(names, line);
    assert Parsed(n) in IDS && KidsOf(t, Parsed(n)) == KidsAt(Parsed(n));
    if n < 5 {
      assert Parsed(n + 1) in IDS && NameOf(t, Parsed(n + 1)) == names[n + 1];
      FilterOne(HasName(t.tags, name), Parsed(n + 1));
    }
  }

  lemma FilterOne(p: Id -> bool, id: Id)
    ensures Filter(p, [id]) == if p(id) then [id] else []
  {
    assert [id][1..] == [];
  }

  lemma ChainedChild(names: Six, line: string, n: nat, name: string)
    requires n < 5 && names[n + 1] == name
    ensures Child(Chained(names, line), Some(Parsed(n)), name) == Some(Parsed(n + 1))
    ensures Children(Chained(names, line), Some(Parsed(n)), name) == [Parsed(n + 1)]
  {
    ChainedKids(names, line, n, name);
  }

  lemma ChainedTx(t: Tree, names: Six, line: string)
    requires t == Chained(names, line)
    requires names[1] == "FIToFICstmrCdtTrf" && names[2] == "CdtTrfTxInf" && names[3] == "Dbtr" && names[4] == "PstlAdr"
    ensures TxElements(t) == [Parsed(2)]
    ensures AddressNode(t, Parsed(2), Dbtr) == Some(Parsed(4))
  {
    ChainedChild(names, line, 0, names[1]);
    ChainedChild(names, line, 1, names[2]);
    ChainedChild(names, line, 2, names[3]);
    ChainedChild(names, line, 3, names[4]);
  }

  lemma ChainedLines(t: Tree, names: Six, line: string)
    requires t == Chained(names, line)
    requires names[5] == "AdrLine" && line != "" && Trimmed(line)
    ensures Texts(t, Children(t, Some(Parsed(4)), "AdrLine")) == [line]
  {
    ChainedChild(names, line, 4, names[5]);
    assert Parsed(5) in IDS && TextOf(t, Parsed(5)) == Some(line);
    assert [Parsed(5)][1..] == [];
  }

  lemma ChainedNoTown(t: Tree, names: Six, line: string)
    requires t == Chained(names, line) && names[5] != "TwnNm"
    ensures Text(t, Child(t, Some(Parsed(4)), "TwnNm")).None?
  {
    ChainedKids(names, line, 4, "TwnNm");
  }

  lemma ChainedAddress(t: Tree, names: Six, line: string)
    requires t == Chained(names, line) && names == NAMES && line != "" && Trimmed(line)
    ensures IsDocument(t) && |MapMessage(t).transactions| == 1
    ensures var a := AddressOf(MapMessage(t).transactions[0], Dbtr);
      a.Some? && a.value.townName.None? && a.value.addressLines == [line]
  {
    assert Parsed(0) in IDS && t.tags[Parsed(0)] == TagOf(names, Parsed(0));
    ChainedTx(t, names, line);
    RepairLens.MappedAt(t, 0);
    SlotAddress(t, Parsed(2), 0, Dbtr);
    ChainedLines(t, names, line);
    ChainedNoTown(t, names, line);
    AddressFieldsInOrder(t, Parsed(4), SlotPath(0, Dbtr));
  }

  /** The curated tables and a document with one such line: after a first repair pass there is still a
      change to propose. */
  lemma SecondPassNeeded(nfkc: string -> string, upper: string -> string, isUpper: char -> bool)
    requires (forall s: string :: Countries.IsCode(s) ==> upper(s) == s) && isUpper('A')
    ensures var g, t := Curated(nfkc, upper, isUpper), Chained(NAMES, LINE);
      && Valid(t) && IsDocument(t)
      && WellFormedChanges(ChangesOf(EditsOf(MapMessage(t), Provider(g))))
      && EditsOf(MapMessage(RepairPass(g, t)), Provider(g)) != []
  {
    var g, t := Curated(nfkc, upper, isUpper), Chained(NAMES, LINE);
    CuratedIsSound(nfkc, upper, isUpper);
    ChainedValid(t, NAMES, LINE);
    LineTrimmed();
    ChainedAddress(t, NAMES, LINE);
    var x := MapMessage(t).transactions[0];
    var a := AddressOf(x, Dbtr).value;
    assert Countries.IsCode("DE");
    TownOfLine(g, CountryCode(g, a));
    TownShrinks();
    GapsInTown(g, a);
    SomeGaps(g, MapMessage(t), Dbtr);
    OnePassSuffices(g, t);
  }

  // ----- a candidate that nothing was checked of -----

  lemma {:induction false} NothingResolved(txs: seq<Transaction>, slots: seq<Slot>, analyze: PostalAddress -> Analysis)
    requires forall a :: analyze(a) == Analysis(None, None)
    ensures EditsOfTxs(txs, slots, analyze) == []
  {
    if txs != [] {
      NothingResolved(txs[..|txs| - 1], slots, analyze);
      NothingInSlots(|txs| - 1, txs[|txs| - 1], slots, analyze);
    }
  }

  lemma {:induction false} NothingInSlots(tx: nat, x: Transaction, slots: seq<Slot>, analyze: PostalAddress -> Analysis)
    requires forall a :: analyze(a) == Analysis(None, None)
    ensures EditsOfSlots(tx, x, slots, analyze) == []
  {
    if slots != [] {
      var last := slots[|slots| - 1];
      NothingInSlots(tx, x, slots[..|slots| - 1], analyze);
      NothingInAddress(tx, last, AddressOf(x, last), analyze);
    }
  }

  lemma NothingInAddress(tx: nat, slot: Slot, a: Option<PostalAddress>, analyze: PostalAddress -> Analysis)
    requires a.Some? ==> analyze(a.value) == Analysis(None, None)
    ensures EditsOfAddress(tx, slot, a, analyze) == []
  {
  }

  /** A document that the schema rejects and the rules block. A provider that resolves nothing proposes no
      change, and the candidate is called validated. */
  method RejectedButValidated(schemaValid: Tree -> bool, evaluate: Message -> seq<Candidates.Severity>)
    returns (doc: XmlDocument, c: Candidates.Candidate)
    requires !schemaValid(Chained(NAMES, LINE)) && Candidates.Blocking(evaluate(MapMessage(Chained(NAMES, LINE))))
    ensures doc.tree == Chained(NAMES, LINE) && Valid(doc.tree) && IsDocument(doc.tree)
    ensures c.status == Candidates.ValidatedCandidate && c.changes == []
  {
    ChainedValid(Chained(NAMES, LINE), NAMES, LINE);
    LineTrimmed();
    ChainedAddress(Chained(NAMES, LINE), NAMES, LINE);
    doc := new XmlDocument.Copy(Chained(NAMES, LINE));
    var analyze := (a: PostalAddress) => Analysis(None, None);
    NothingResolved(MapMessage(doc.tree).transactions, SLOTS, analyze);
    c := Candidates.GenerateCandidate(doc, analyze, schemaValid, evaluate);
  }

  lemma LineTrimmed()
    ensures LINE != "" && Trimmed(LINE)
  {
    assert LINE[0] == 'A' && LINE[6] == 'E' && |LINE| == 7;
  }

  lemma SomeGaps(g: CloudNova.Reference, msg: Message, slot: Slot)
    requires |msg.transactions| == 1 && SlotWithGaps(g, msg.transactions[0], slot)
    ensures AnyLineTownWithGaps(g, msg)
  {
  }

  lemma GapsInTown(g: CloudNova.Reference, a: PostalAddress)
    requires a.townName.None? && a.addressLines == [LINE]
    requires TownInLines(g, [LINE], CountryCode(g, a)) == Some("A  B") && NormalizeWhitespace("A  B") != "A  B"
    ensures LineTownWithGaps(g, a)
  {
  }
}
