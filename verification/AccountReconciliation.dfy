// Reconciling one account entry (camt.053/camt.054) with the context of a payment lifecycle.
module AccountReconciliation {
  import opened Strings
  import Narrowing
  import opened Correlation

  datatype Direction = Credit | Debit

  datatype Money = Money(minor: int, currency: string)

  datatype Entry = Entry(
    identityHash: string, uetr: Option<string>, transactionId: Option<string>, endToEndId: Option<string>,
    instructionId: Option<string>, servicerReference: Option<string>, remittanceReference: Option<string>,
    amount: Option<Money>, currency: Option<string>, creditDebit: Option<Direction>)

  /** The account a report is about. */
  datatype AccountRef = AccountRef(iban: Option<string>, otherIdentification: Option<string>)

  datatype Context = Context(
    transactionId: Option<string>, endToEndId: Option<string>, instructionId: Option<string>, uetr: Option<string>,
    servicerReference: Option<string>, reference: Option<string>, amount: Option<int>, currency: Option<string>,
    debtorAccount: Option<string>, creditorAccount: Option<string>)

  datatype Code =
    | UetrExact | TxIdExact | E2EExact | InstrExact | ServicerExact
    | AmountAgrees | CurrencyAgrees | AccountAgrees | ReferenceAgrees | DirectionExpected

  /** An append-only list of codes. */
  datatype Log = Empty | Logged(earlier: Log, code: Code)

  /** `if c: log.append(x)` */
  function Note(log: Log, c: bool, x: Code): Log { if c then Logged(log, x) else log }

  predicate Has(log: Log, y: Code) { log.Logged? && (log.code == y || Has(log.earlier, y)) }

  lemma HasNote(log: Log, c: bool, x: Code, y: Code)
    ensures Has(Note(log, c, x), y) <==> Has(log, y) || (c && y == x)
  {
  }

  datatype Clash = IdConflict | AmountConflict | CurrencyConflict | AccountConflict | DirectionConflict

  datatype Classification =
    | Reconciled | PossibleReconciliation | UnmatchedAccountEntry | AmountMismatch | CurrencyMismatch | AccountMismatch
    | ReviewRequired | DuplicateAccountEntry

  datatype Outcome = Outcome(classification: Classification, evidence: Log, conflicts: seq<Clash>, score: int)

  /** `str.upper`, `str.strip` and the reference normalization. */
  datatype Engine = Engine(upper: string -> string, reference: string -> string)

  predicate SameId(e: Engine, a: Option<string>, b: Option<string>) {
    Given(a) && Given(b) && e.upper(Strip(a.value)) == e.upper(Strip(b.value))
  }

  predicate OtherId(e: Engine, a: Option<string>, b: Option<string>) {
    Given(a) && Given(b) && e.upper(Strip(a.value)) != e.upper(Strip(b.value))
  }

  predicate SameAccount(e: Engine, a: Option<string>, b: Option<string>) {
    Given(a) && Given(b)
    && e.upper(Narrowing.Without(a.value, {' ', '-'})) == e.upper(Narrowing.Without(b.value, {' ', '-'}))
  }

  function EntryAccount(account: Option<AccountRef>): Option<string> {
    if account.None? then None else OrElse(account.value.iban, account.value.otherIdentification)
  }

  /** `_expected_direction` */
  function ExpectedDirection(e: Engine, account: Option<string>, c: Context): Option<Direction> {
    if SameAccount(e, account, c.creditorAccount) then Some(Credit)
    else if SameAccount(e, account, c.debtorAccount) then Some(Debit)
    else None
  }

  /** The entry's own currency, else that of its amount. */
  function EntryCurrency(entry: Entry): Option<string> {
    if Given(entry.currency) then entry.currency
    else if entry.amount.Some? then Some(entry.amount.value.currency) else None
  }

  predicate SameAmount(entry: Entry, c: Context) {
    entry.amount.Some? && c.amount.Some? && entry.amount.value.minor == c.amount.value
  }

  predicate OtherAmount(entry: Entry, c: Context) {
    entry.amount.Some? && c.amount.Some? && entry.amount.value.minor != c.amount.value
  }

  predicate SameCurrency(e: Engine, entry: Entry, c: Context) {
    var ccy := EntryCurrency(entry);
    Given(ccy) && Given(c.currency) && e.upper(ccy.value) == e.upper(c.currency.value)
  }

  predicate OtherCurrency(e: Engine, entry: Entry, c: Context) {
    var ccy := EntryCurrency(entry);
    Given(ccy) && Given(c.currency) && e.upper(ccy.value) != e.upper(c.currency.value)
  }

  predicate SameReference(e: Engine, entry: Entry, c: Context) {
    Given(entry.remittanceReference) && Given(c.reference)
    && e.reference(entry.remittanceReference.value) == e.reference(c.reference.value)
  }

  predicate AsExpected(e: Engine, entry: Entry, account: Option<string>, c: Context) {
    ExpectedDirection(e, account, c).Some? && entry.creditDebit == ExpectedDirection(e, account, c)
  }

  predicate AgainstExpected(e: Engine, entry: Entry, account: Option<string>, c: Context) {
    ExpectedDirection(e, account, c).Some? && entry.creditDebit.Some? && entry.creditDebit != ExpectedDirection(e, account, c)
  }

  /** The entry's account is neither of the two known accounts of the lifecycle. */
  predicate ForeignAccount(e: Engine, account: Option<string>, c: Context) {
    Given(account) && Given(c.creditorAccount) && Given(c.debtorAccount)
    && !SameAccount(e, account, c.creditorAccount) && !SameAccount(e, account, c.debtorAccount)
  }

  /** What an entry and a context agree on, in the order of the evidence. */
  datatype Agreement = Agreement(
    uetr: bool, txId: bool, e2e: bool, instr: bool, servicer: bool, amount: bool, currency: bool,
    creditor: bool, debtor: bool, direction: bool, reference: bool)

  function AgreementOf(e: Engine, entry: Entry, account: Option<string>, c: Context): Agreement {
    Agreement(
      SameId(e, entry.uetr, c.uetr), SameId(e, entry.transactionId, c.transactionId),
      SameId(e, entry.endToEndId, c.endToEndId), SameId(e, entry.instructionId, c.instructionId),
      SameId(e, entry.servicerReference, c.servicerReference), SameAmount(entry, c), SameCurrency(e, entry, c),
      SameAccount(e, account, c.creditorAccount), SameAccount(e, account, c.debtorAccount),
      AsExpected(e, entry, account, c), SameReference(e, entry, c))
  }

  function Ids(g: Agreement): Log {
    Note(Note(Note(Note(Note(Empty, g.uetr, UetrExact), g.txId, TxIdExact), g.e2e, E2EExact), g.instr, InstrExact),
        g.servicer, ServicerExact)
  }

  function Monies(ids: Log, g: Agreement): Log {
    Note(Note(ids, g.amount, AmountAgrees), g.currency, CurrencyAgrees)
  }

  function Accounts(ids: Log, g: Agreement): Log {
    Note(Note(Note(Note(ids, g.creditor, AccountAgrees), g.debtor, AccountAgrees), g.direction, DirectionExpected),
        g.reference, ReferenceAgrees)
  }

  function EvidenceOf(e: Engine, entry: Entry, account: Option<string>, c: Context): Log {
    var g := AgreementOf(e, entry, account, c);
    Accounts(Monies(Ids(g), g), g)
  }

  function IdConflicts(e: Engine, entry: Entry, c: Context): seq<Clash> {
    var c1 := Add([], OtherId(e, entry.uetr, c.uetr), IdConflict);
    var c2 := Add(c1, OtherId(e, entry.transactionId, c.transactionId), IdConflict);
    var c3 := Add(c2, OtherId(e, entry.endToEndId, c.endToEndId), IdConflict);
    var c4 := Add(c3, OtherId(e, entry.instructionId, c.instructionId), IdConflict);
    Add(c4, OtherId(e, entry.servicerReference, c.servicerReference), IdConflict)
  }

  function MoneyConflicts(e: Engine, entry: Entry, c: Context): seq<Clash> {
    Add(Add(IdConflicts(e, entry, c), OtherAmount(entry, c), AmountConflict), OtherCurrency(e, entry, c), CurrencyConflict)
  }

  function ConflictsOf(e: Engine, entry: Entry, account: Option<string>, c: Context): seq<Clash> {
    Add(Add(MoneyConflicts(e, entry, c), AgainstExpected(e, entry, account, c), DirectionConflict),
        ForeignAccount(e, account, c), AccountConflict)
  }

  function Weight(x: Code): nat {
    match x
    case UetrExact => 40
    case TxIdExact => 40
    case E2EExact => 30
    case InstrExact => 20
    case ServicerExact => 20
    case AccountAgrees => 15
    case AmountAgrees => 20
    case CurrencyAgrees => 10
    case ReferenceAgrees => 15
    case DirectionExpected => 5
  }

  /** The sum of all weights. */
  const TOTAL_WEIGHT: nat := 215

  function Got(log: Log): nat {
    if log.Empty? then 0 else Got(log.earlier) + Weight(log.code)
  }

  /** `round(100 * got / total, 2)` in hundredths, to the nearest: 10000 * got / 215 is never halfway. */
  function Score(evidence: Log): int { Rounded(Got(evidence)) }

  function Rounded(points: nat): int { (20000 * points + 215) / 430 }

  function Classify(evidence: Log, conflicts: seq<Clash>): Classification {
    var strong := Has(evidence, UetrExact) || Has(evidence, TxIdExact) || Has(evidence, E2EExact) || Has(evidence, InstrExact);
    var amount, currency := Has(evidence, AmountAgrees), Has(evidence, CurrencyAgrees);
    if CurrencyConflict in conflicts then CurrencyMismatch
    else if AmountConflict in conflicts then AmountMismatch
    else if AccountConflict in conflicts then AccountMismatch
    else if DirectionConflict in conflicts || IdConflict in conflicts then ReviewRequired
    else if strong && amount && currency then Reconciled
    else if strong && (amount || currency) then PossibleReconciliation
    else if amount && currency then PossibleReconciliation
    else if strong then PossibleReconciliation
    else UnmatchedAccountEntry
  }

  function Reconcile(e: Engine, entry: Entry, account: Option<AccountRef>, c: Context): Outcome {
    var evidence := EvidenceOf(e, entry, EntryAccount(account), c);
    var conflicts := ConflictsOf(e, entry, EntryAccount(account), c);
    Outcome(Classify(evidence, conflicts), evidence, conflicts, Score(evidence))
  }

  // ----- the engine -----

  /** `_compare` */
  method Compare(e: Engine, a: Option<string>, b: Option<string>, code: Code, evidence: Log, conflicts: seq<Clash>)
    returns (evidence': Log, conflicts': seq<Clash>)
    ensures evidence' == Note(evidence, SameId(e, a, b), code)
    ensures conflicts' == Add(conflicts, OtherId(e, a, b), IdConflict)
  {
    evidence', conflicts' := evidence, conflicts;
    if !Given(a) || !Given(b) {
      return;
    }
    if e.upper(Strip(a.value)) == e.upper(Strip(b.value)) {
      evidence' := Logged(evidence', code);
    } else {
      conflicts' := conflicts' + [IdConflict];
    }
  }

  /** The identifier hierarchy, strongest first. */
  method CompareIdentifiers(e: Engine, entry: Entry, account: Option<string>, c: Context)
    returns (evidence: Log, conflicts: seq<Clash>)
    ensures evidence == Ids(AgreementOf(e, entry, account, c)) && conflicts == IdConflicts(e, entry, c)
  {
    evidence, conflicts := Compare(e, entry.uetr, c.uetr, UetrExact, Empty, []);
    evidence, conflicts := Compare(e, entry.transactionId, c.transactionId, TxIdExact, evidence, conflicts);
    evidence, conflicts := Compare(e, entry.endToEndId, c.endToEndId, E2EExact, evidence, conflicts);
    evidence, conflicts := Compare(e, entry.instructionId, c.instructionId, InstrExact, evidence, conflicts);
    evidence, conflicts := Compare(e, entry.servicerReference, c.servicerReference, ServicerExact, evidence, conflicts);
  }

  method CompareMoney(e: Engine, entry: Entry, account: Option<string>, c: Context)
    returns (evidence: Log, conflicts: seq<Clash>)
    ensures var g := AgreementOf(e, entry, account, c); evidence == Monies(Ids(g), g)
    ensures conflicts == MoneyConflicts(e, entry, c)
  {
    evidence, conflicts := CompareIdentifiers(e, entry, account, c);
    if entry.amount.Some? && c.amount.Some? {
      if entry.amount.value.minor == c.amount.value {
        evidence := Logged(evidence, AmountAgrees);
      } else {
        conflicts := conflicts + [AmountConflict];
      }
    }
    var ccy := EntryCurrency(entry);
    if Given(ccy) && Given(c.currency) {
      if e.upper(ccy.value) == e.upper(c.currency.value) {
        evidence := Logged(evidence, CurrencyAgrees);
      } else {
        conflicts := conflicts + [CurrencyConflict];
      }
    }
  }

  method CompareAccounts(e: Engine, entry: Entry, account: Option<string>, c: Context)
    returns (evidence: Log, conflicts: seq<Clash>)
    ensures evidence == EvidenceOf(e, entry, account, c) && conflicts == ConflictsOf(e, entry, account, c)
  {
    evidence, conflicts := CompareMoney(e, entry, account, c);
    var expected := ExpectedDirection(e, account, c);
    if SameAccount(e, account, c.creditorAccount) {
      evidence := Logged(evidence, AccountAgrees);
    }
    if SameAccount(e, account, c.debtorAccount) {
      evidence := Logged(evidence, AccountAgrees);
    }
    if expected.Some? && entry.creditDebit.Some? {
      if entry.creditDebit == expected {
        evidence := Logged(evidence, DirectionExpected);
      } else {
        conflicts := conflicts + [DirectionConflict];
      }
    } else if ForeignAccount(e, account, c) {
      conflicts := conflicts + [AccountConflict];
    }
    if SameReference(e, entry, c) {
      evidence := Logged(evidence, ReferenceAgrees);
    }
  }

  /** `reconcile_account_entry` */
  method ReconcileAccountEntry(e: Engine, entry: Entry, account: Option<AccountRef>, c: Context) returns (r: Outcome)
    ensures r == Reconcile(e, entry, account, c)
  {
    var evidence, conflicts := CompareAccounts(e, entry, EntryAccount(account), c);
    r := Outcome(Classify(evidence, conflicts), evidence, conflicts, Score(evidence));
  }

  // ----- when an entry is reconciled -----

  predicate StrongId(e: Engine, entry: Entry, c: Context) {
    || SameId(e, entry.uetr, c.uetr) || SameId(e, entry.transactionId, c.transactionId)
    || SameId(e, entry.endToEndId, c.endToEndId) || SameId(e, entry.instructionId, c.instructionId)
  }

  predicate Disagree(e: Engine, entry: Entry, account: Option<string>, c: Context) {
    || OtherId(e, entry.uetr, c.uetr) || OtherId(e, entry.transactionId, c.transactionId)
    || OtherId(e, entry.endToEndId, c.endToEndId) || OtherId(e, entry.instructionId, c.instructionId)
    || OtherId(e, entry.servicerReference, c.servicerReference)
    || OtherAmount(entry, c) || OtherCurrency(e, entry, c)
    || AgainstExpected(e, entry, account, c) || ForeignAccount(e, account, c)
  }

  lemma HasTwo(log: Log, c: bool, x: Code, d: bool, z: Code, y: Code)
    ensures Has(Note(Note(log, c, x), d, z), y) <==> Has(log, y) || (c && y == x) || (d && y == z)
  {
    HasNote(log, c, x, y);
    HasNote(Note(log, c, x), d, z, y);
  }

  lemma HasIds(g: Agreement, y: Code)
    ensures Has(Ids(g), y) <==>
      match y
      case UetrExact => g.uetr
      case TxIdExact => g.txId
      case E2EExact => g.e2e
      case InstrExact => g.instr
      case ServicerExact => g.servicer
      case _ => false
  {
    var two := Note(Note(Empty, g.uetr, UetrExact), g.txId, TxIdExact);
    HasTwo(Empty, g.uetr, UetrExact, g.txId, TxIdExact, y);
    HasTwo(two, g.e2e, E2EExact, g.instr, InstrExact, y);
    HasNote(Note(Note(two, g.e2e, E2EExact), g.instr, InstrExact), g.servicer, ServicerExact, y);
  }

  lemma HasMonies(log: Log, g: Agreement, y: Code)
    ensures Has(Monies(log, g), y) <==> Has(log, y) || (g.amount && y == AmountAgrees) || (g.currency && y == CurrencyAgrees)
  {
    HasTwo(log, g.amount, AmountAgrees, g.currency, CurrencyAgrees, y);
  }

  lemma HasAccounts(log: Log, g: Agreement, y: Code)
    requires !y.AccountAgrees? && !y.DirectionExpected? && !y.ReferenceAgrees?
    ensures Has(Accounts(log, g), y) <==> Has(log, y)
  {
    HasTwo(log, g.creditor, AccountAgrees, g.debtor, AccountAgrees, y);
    HasTwo(Note(Note(log, g.creditor, AccountAgrees), g.debtor, AccountAgrees),
           g.direction, DirectionExpected, g.reference, ReferenceAgrees, y);
  }

  predicate Finds(e: Engine, entry: Entry, account: Option<string>, c: Context, y: Code) {
    Has(EvidenceOf(e, entry, account, c), y)
  }

  lemma Members(e: Engine, entry: Entry, account: Option<string>, c: Context, y: Code)
    ensures y.UetrExact? ==> (Finds(e, entry, account, c, y) <==> SameId(e, entry.uetr, c.uetr))
    ensures y.TxIdExact? ==> (Finds(e, entry, account, c, y) <==> SameId(e, entry.transactionId, c.transactionId))
    ensures y.E2EExact? ==> (Finds(e, entry, account, c, y) <==> SameId(e, entry.endToEndId, c.endToEndId))
    ensures y.InstrExact? ==> (Finds(e, entry, account, c, y) <==> SameId(e, entry.instructionId, c.instructionId))
    ensures y.AmountAgrees? ==> (Finds(e, entry, account, c, y) <==> SameAmount(entry, c))
    ensures y.CurrencyAgrees? ==> (Finds(e, entry, account, c, y) <==> SameCurrency(e, entry, c))
  {
    if !y.AccountAgrees? && !y.DirectionExpected? && !y.ReferenceAgrees? {
      var g := AgreementOf(e, entry, account, c);
      HasIds(g, y);
      HasMonies(Ids(g), g, y);
      HasAccounts(Monies(Ids(g), g), g, y);
    }
  }

  lemma AddSome<T>(xs: seq<T>, c: bool, x: T)
    ensures Add(xs, c, x) != [] <==> xs != [] || c
  {
  }

  lemma SomeIdConflict(e: Engine, entry: Entry, c: Context)
    ensures IdConflicts(e, entry, c) != [] <==>
      || OtherId(e, entry.uetr, c.uetr) || OtherId(e, entry.transactionId, c.transactionId)
      || OtherId(e, entry.endToEndId, c.endToEndId) || OtherId(e, entry.instructionId, c.instructionId)
      || OtherId(e, entry.servicerReference, c.servicerReference)
  {
    var c1 := Add([], OtherId(e, entry.uetr, c.uetr), IdConflict);
    AddSome([], OtherId(e, entry.uetr, c.uetr), IdConflict);
    var c2 := Add(c1, OtherId(e, entry.transactionId, c.transactionId), IdConflict);
    AddSome(c1, OtherId(e, entry.transactionId, c.transactionId), IdConflict);
    var c3 := Add(c2, OtherId(e, entry.endToEndId, c.endToEndId), IdConflict);
    AddSome(c2, OtherId(e, entry.endToEndId, c.endToEndId), IdConflict);
    var c4 := Add(c3, OtherId(e, entry.instructionId, c.instructionId), IdConflict);
    AddSome(c3, OtherId(e, entry.instructionId, c.instructionId), IdConflict);
    AddSome(c4, OtherId(e, entry.servicerReference, c.servicerReference), IdConflict);
  }

  lemma SomeConflict(e: Engine, entry: Entry, account: Option<string>, c: Context)
    ensures ConflictsOf(e, entry, account, c) != [] <==> Disagree(e, entry, account, c)
  {
    SomeIdConflict(e, entry, c);
    var c0 := IdConflicts(e, entry, c);
    AddSome(c0, OtherAmount(entry, c), AmountConflict);
    AddSome(Add(c0, OtherAmount(entry, c), AmountConflict), OtherCurrency(e, entry, c), CurrencyConflict);
    var c1 := MoneyConflicts(e, entry, c);
    AddSome(c1, AgainstExpected(e, entry, account, c), DirectionConflict);
    AddSome(Add(c1, AgainstExpected(e, entry, account, c), DirectionConflict), ForeignAccount(e, account, c), AccountConflict);
  }

  lemma ConflictsClassify(evidence: Log, conflicts: seq<Clash>)
    ensures Classify(evidence, conflicts) == Reconciled <==>
      && conflicts == [] && Has(evidence, AmountAgrees) && Has(evidence, CurrencyAgrees)
      && (Has(evidence, UetrExact) || Has(evidence, TxIdExact) || Has(evidence, E2EExact) || Has(evidence, InstrExact))
  {
    if conflicts != [] {
      assert conflicts[0] in conflicts;
      match conflicts[0]
      case IdConflict =>
      case AmountConflict =>
      case CurrencyConflict =>
      case AccountConflict =>
      case DirectionConflict =>
    }
  }

  /** An entry is reconciled exactly when nothing conflicts, a UETR, transaction, end-to-end or
      instruction id agrees, and amount and currency agree. */
  lemma ReconciledMeans(e: Engine, entry: Entry, account: Option<AccountRef>, c: Context)
    ensures Reconcile(e, entry, account, c).classification == Reconciled <==>
      && !Disagree(e, entry, EntryAccount(account), c) && StrongId(e, entry, c)
      && SameAmount(entry, c) && SameCurrency(e, entry, c)
  {
    var a := EntryAccount(account);
    ConflictsClassify(EvidenceOf(e, entry, a, c), ConflictsOf(e, entry, a, c));
    SomeConflict(e, entry, a, c);
    Members(e, entry, a, c, UetrExact);
    Members(e, entry, a, c, TxIdExact);
    Members(e, entry, a, c, E2EExact);
    Members(e, entry, a, c, InstrExact);
    Members(e, entry, a, c, AmountAgrees);
    Members(e, entry, a, c, CurrencyAgrees);
  }

  // ----- what each class means -----

  lemma InAdd<T>(xs: seq<T>, c: bool, x: T, y: T)
    ensures y in Add(xs, c, x) <==> y in xs || (c && y == x)
  {
  }

  predicate AnyOtherId(e: Engine, entry: Entry, c: Context) {
    || OtherId(e, entry.uetr, c.uetr) || OtherId(e, entry.transactionId, c.transactionId)
    || OtherId(e, entry.endToEndId, c.endToEndId) || OtherId(e, entry.instructionId, c.instructionId)
    || OtherId(e, entry.servicerReference, c.servicerReference)
  }

  lemma OnlyIdConflicts(e: Engine, entry: Entry, c: Context, y: Clash)
    ensures y in IdConflicts(e, entry, c) <==> y.IdConflict? && AnyOtherId(e, entry, c)
  {
    SomeIdConflict(e, entry, c);
    var c1 := Add([], OtherId(e, entry.uetr, c.uetr), IdConflict);
    var c2 := Add(c1, OtherId(e, entry.transactionId, c.transactionId), IdConflict);
    var c3 := Add(c2, OtherId(e, entry.endToEndId, c.endToEndId), IdConflict);
    var c4 := Add(c3, OtherId(e, entry.instructionId, c.instructionId), IdConflict);
    InAdd([], OtherId(e, entry.uetr, c.uetr), IdConflict, y);
    InAdd(c1, OtherId(e, entry.transactionId, c.transactionId), IdConflict, y);
    InAdd(c2, OtherId(e, entry.endToEndId, c.endToEndId), IdConflict, y);
    InAdd(c3, OtherId(e, entry.instructionId, c.instructionId), IdConflict, y);
    InAdd(c4, OtherId(e, entry.servicerReference, c.servicerReference), IdConflict, y);
  }

  lemma ConflictMembers(e: Engine, entry: Entry, account: Option<string>, c: Context, y: Clash)
    ensures y in ConflictsOf(e, entry, account, c) <==>
      match y
      case IdConflict => AnyOtherId(e, entry, c)
      case AmountConflict => OtherAmount(entry, c)
      case CurrencyConflict => OtherCurrency(e, entry, c)
      case AccountConflict => ForeignAccount(e, account, c)
      case DirectionConflict => AgainstExpected(e, entry, account, c)
  {
    OnlyIdConflicts(e, entry, c, y);
    var c0 := IdConflicts(e, entry, c);
    InAdd(c0, OtherAmount(entry, c), AmountConflict, y);
    InAdd(Add(c0, OtherAmount(entry, c), AmountConflict), OtherCurrency(e, entry, c), CurrencyConflict, y);
    var c1 := MoneyConflicts(e, entry, c);
    InAdd(c1, AgainstExpected(e, entry, account, c), DirectionConflict, y);
    InAdd(Add(c1, AgainstExpected(e, entry, account, c), DirectionConflict), ForeignAccount(e, account, c), AccountConflict, y);
  }

  lemma StrongMeans(e: Engine, entry: Entry, account: Option<string>, c: Context)
    ensures var log := EvidenceOf(e, entry, account, c);
      && (Has(log, UetrExact) || Has(log, TxIdExact) || Has(log, E2EExact) || Has(log, InstrExact) <==> StrongId(e, entry, c))
      && (Has(log, AmountAgrees) <==> SameAmount(entry, c)) && (Has(log, CurrencyAgrees) <==> SameCurrency(e, entry, c))
  {
    Members(e, entry, account, c, UetrExact);
    Members(e, entry, account, c, TxIdExact);
    Members(e, entry, account, c, E2EExact);
    Members(e, entry, account, c, InstrExact);
    Members(e, entry, account, c, AmountAgrees);
    Members(e, entry, account, c, CurrencyAgrees);
  }

  /** Each class in terms of the inputs. A differing currency decides before a differing amount, that before
      a foreign account, and that before a differing direction or identifier; without any of these, the
      class is decided by what agrees. */
  lemma ClassMeans(e: Engine, entry: Entry, account: Option<AccountRef>, c: Context)
    ensures var k, a := Reconcile(e, entry, account, c).classification, EntryAccount(account);
      var strong, money := StrongId(e, entry, c), SameAmount(entry, c) && SameCurrency(e, entry, c);
      && (k == CurrencyMismatch <==> OtherCurrency(e, entry, c))
      && (k == AmountMismatch <==> OtherAmount(entry, c) && !OtherCurrency(e, entry, c))
      && (k == AccountMismatch <==> ForeignAccount(e, a, c) && !OtherAmount(entry, c) && !OtherCurrency(e, entry, c))
      && (k == ReviewRequired <==>
            && (AgainstExpected(e, entry, a, c) || AnyOtherId(e, entry, c))
            && !ForeignAccount(e, a, c) && !OtherAmount(entry, c) && !OtherCurrency(e, entry, c))
      && (k == Reconciled <==> !Disagree(e, entry, a, c) && strong && money)
      && (k == PossibleReconciliation <==> !Disagree(e, entry, a, c) && strong != money)
      && (k == UnmatchedAccountEntry <==> !Disagree(e, entry, a, c) && !strong && !money)
      && k != DuplicateAccountEntry
  {
    var a := EntryAccount(account);
    StrongMeans(e, entry, a, c);
    ConflictMembers(e, entry, a, c, IdConflict);
    ConflictMembers(e, entry, a, c, AmountConflict);
    ConflictMembers(e, entry, a, c, CurrencyConflict);
    ConflictMembers(e, entry, a, c, AccountConflict);
    ConflictMembers(e, entry, a, c, DirectionConflict);
  }

  // ----- the range of the score -----

  function Points(c: bool, n: nat): nat { if c then n else 0 }

  lemma GotNote(log: Log, c: bool, x: Code)
    ensures Got(Note(log, c, x)) == Got(log) + Points(c, Weight(x))
  {
  }

  lemma TwoPoints(log: Log, c: bool, x: Code, d: bool, y: Code)
    ensures Got(Note(Note(log, c, x), d, y)) == Got(log) + Points(c, Weight(x)) + Points(d, Weight(y))
  {
    GotNote(log, c, x);
    GotNote(Note(log, c, x), d, y);
  }

  function IdScore(g: Agreement): nat {
    Points(g.uetr, 40) + Points(g.txId, 40) + Points(g.e2e, 30) + Points(g.instr, 20) + Points(g.servicer, 20)
  }

  function MoneyScore(g: Agreement): nat { Points(g.amount, 20) + Points(g.currency, 10) }

  function AccountScore(g: Agreement): nat {
    Points(g.creditor, 15) + Points(g.debtor, 15) + Points(g.direction, 5) + Points(g.reference, 15)
  }

  lemma IdPoints(g: Agreement)
    ensures Got(Ids(g)) == IdScore(g)
  {
    var two := Note(Note(Empty, g.uetr, UetrExact), g.txId, TxIdExact);
    TwoPoints(Empty, g.uetr, UetrExact, g.txId, TxIdExact);
    TwoPoints(two, g.e2e, E2EExact, g.instr, InstrExact);
    GotNote(Note(Note(two, g.e2e, E2EExact), g.instr, InstrExact), g.servicer, ServicerExact);
  }

  lemma MoneyPoints(ids: Log, g: Agreement)
    ensures Got(Monies(ids, g)) == Got(ids) + MoneyScore(g)
  {
    TwoPoints(ids, g.amount, AmountAgrees, g.currency, CurrencyAgrees);
  }

  lemma AccountPoints(ids: Log, g: Agreement)
    ensures Got(Accounts(ids, g)) == Got(ids) + AccountScore(g)
  {
    TwoPoints(ids, g.creditor, AccountAgrees, g.debtor, AccountAgrees);
    TwoPoints(Note(Note(ids, g.creditor, AccountAgrees), g.debtor, AccountAgrees),
              g.direction, DirectionExpected, g.reference, ReferenceAgrees);
  }

  lemma PointsOf(g: Agreement)
    ensures Got(Accounts(Monies(Ids(g), g), g)) == IdScore(g) + MoneyScore(g) + AccountScore(g)
  {
    IdPoints(g);
    MoneyPoints(Ids(g), g);
    AccountPoints(Monies(Ids(g), g), g);
  }

  /** The points of one reconciliation, agreement by agreement. */
  lemma PointsAre(e: Engine, entry: Entry, account: Option<string>, c: Context)
    ensures var g := AgreementOf(e, entry, account, c);
      Got(EvidenceOf(e, entry, account, c)) == IdScore(g) + MoneyScore(g) + AccountScore(g)
  {
    PointsOf(AgreementOf(e, entry, account, c));
  }

  /** The score is the share of the agreeing weights in 215, in hundredths and to the nearest. */
  lemma ScoreMeans(e: Engine, entry: Entry, account: Option<AccountRef>, c: Context)
    ensures var r, a := Reconcile(e, entry, account, c), EntryAccount(account);
      var points := Points(SameId(e, entry.uetr, c.uetr), 40) + Points(SameId(e, entry.transactionId, c.transactionId), 40)
                    + Points(SameId(e, entry.endToEndId, c.endToEndId), 30)
                    + Points(SameId(e, entry.instructionId, c.instructionId), 20)
                    + Points(SameId(e, entry.servicerReference, c.servicerReference), 20)
                    + Points(SameAmount(entry, c), 20) + Points(SameCurrency(e, entry, c), 10)
                    + Points(SameAccount(e, a, c.creditorAccount), 15) + Points(SameAccount(e, a, c.debtorAccount), 15)
                    + Points(AsExpected(e, entry, a, c), 5) + Points(SameReference(e, entry, c), 15);
      -215 < 2 * (215 * r.score - 10000 * points) <= 215
  {
    PointsAre(e, entry, EntryAccount(account), c);
    Nearest(Got(EvidenceOf(e, entry, EntryAccount(account), c)));
  }

  lemma Nearest(points: nat)
    ensures -215 < 2 * (215 * Rounded(points) - 10000 * points) <= 215
  {
  }

  lemma RoundedRange(points: nat)
    requires points <= 230
    ensures 0 <= Rounded(points) <= 10698 && (Rounded(points) > 10000 <==> points > 215)
    ensures points <= 120 ==> Rounded(points) <= 5581 && (Rounded(points) == 5581 <==> points == 120)
    ensures points == 230 <==> Rounded(points) == 10698
  {
  }

  predicate BothAccounts(e: Engine, account: Option<string>, c: Context) {
    SameAccount(e, account, c.creditorAccount) && SameAccount(e, account, c.debtorAccount)
  }

  /** Both accounts are the entry's, everything else agrees, and at most one of currency and direction
      is open. */
  predicate Oversupplied(e: Engine, entry: Entry, account: Option<string>, c: Context) {
    && BothAccounts(e, account, c)
    && SameId(e, entry.uetr, c.uetr) && SameId(e, entry.transactionId, c.transactionId)
    && SameId(e, entry.endToEndId, c.endToEndId) && SameId(e, entry.instructionId, c.instructionId)
    && SameId(e, entry.servicerReference, c.servicerReference)
    && SameAmount(entry, c) && SameReference(e, entry, c)
    && (SameCurrency(e, entry, c) || entry.creditDebit == Some(Credit))
  }

  /** The score lies in 0..106.98, and exceeds 100 exactly for such an entry and context. */
  lemma ScoreRange(e: Engine, entry: Entry, account: Option<AccountRef>, c: Context)
    ensures var r := Reconcile(e, entry, account, c);
      && 0 <= r.score <= 10698
      && (r.score > 10000 <==> Oversupplied(e, entry, EntryAccount(account), c))
      && (r.score == 10698 <==> Oversupplied(e, entry, EntryAccount(account), c)
                                && SameCurrency(e, entry, c) && entry.creditDebit == Some(Credit))
  {
    PointsAre(e, entry, EntryAccount(account), c);
    RoundedRange(Got(EvidenceOf(e, entry, EntryAccount(account), c)));
  }

  /** One account on both sides of a lifecycle and everything else agreeing: a score of 106.98. */
  lemma ScoreAbove100() returns (e: Engine, entry: Entry, account: Option<AccountRef>, c: Context)
    ensures Reconcile(e, entry, account, c).score == 10698
  {
    var x := Some("X");
    e := Engine(s => s, s => s);
    entry := Entry("", x, x, x, x, x, x, Some(Money(1, "EUR")), None, Some(Credit));
    account := Some(AccountRef(x, None));
    c := Context(x, x, x, x, x, x, Some(1), Some("EUR"), x, x);
    ScoreRange(e, entry, account, c);
  }

  /** Without a UETR, a servicer reference, a reference and accounts in the context, no score exceeds
      55.81, which is reached exactly when the three other identifiers, the amount and the currency agree. */
  lemma BareContextScore(e: Engine, entry: Entry, account: Option<AccountRef>, c: Context)
    requires !Given(c.uetr) && !Given(c.servicerReference) && !Given(c.reference)
    requires !Given(c.debtorAccount) && !Given(c.creditorAccount)
    ensures 0 <= Reconcile(e, entry, account, c).score <= 5581
    ensures Reconcile(e, entry, account, c).score == 5581 <==>
      && SameId(e, entry.transactionId, c.transactionId) && SameId(e, entry.endToEndId, c.endToEndId)
      && SameId(e, entry.instructionId, c.instructionId) && SameAmount(entry, c) && SameCurrency(e, entry, c)
  {
    var a := EntryAccount(account);
    PointsAre(e, entry, a, c);
    RoundedRange(Got(EvidenceOf(e, entry, a, c)));
  }
}
