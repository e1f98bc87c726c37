// Ingesting ISO messages: payment lifecycles and their events, account reports and their entries.
module Ingestion {
  import opened Strings
  import opened Correlation
  import A = AccountReconciliation

  // ----- messages as the adapters deliver them -----

  datatype AccountIds = AccountIds(iban: Option<string>, other: Option<string>)

  datatype Remittance = Remittance(reference: Option<string>, unstructured: seq<string>)

  datatype PaymentTx = PaymentTx(
    instructionId: Option<string>, endToEndId: Option<string>, transactionId: Option<string>,
    amount: Option<A.Money>, remittance: Option<Remittance>,
    debtorAccount: Option<AccountIds>, creditorAccount: Option<AccountIds>)

  datatype PaymentStatus = Accepted | Rejected | Pending | Processing | PartiallyAccepted | UnknownStatus

  datatype StatusTx = StatusTx(
    originalInstructionId: Option<string>, originalEndToEndId: Option<string>, originalTransactionId: Option<string>,
    status: PaymentStatus, amount: Option<A.Money>, reference: Option<string>, account: Option<string>)

  datatype ReportType = Statement | Notification

  datatype Report = Report(reportType: ReportType, account: Option<A.AccountRef>, entries: seq<A.Entry>)

  datatype PaymentKind = Initiation | InterbankTransfer | FiTransfer

  /** A message, with the hash that identifies its content. */
  datatype Message =
    | Payment(kind: PaymentKind, hash: string, messageId: Option<string>, transactions: seq<PaymentTx>)
    | StatusReport(hash: string, messageId: Option<string>, originalMessageId: Option<string>,
                   groupStatus: PaymentStatus, statuses: seq<StatusTx>)
    | AccountMessage(hash: string, reports: seq<Report>)

  // ----- what the analysis pipeline hands to the services -----

  datatype Version = Pain | Pacs008 | Pacs009 | Pacs002 | Camt

  datatype Analysis = Analysis(
    version: Version, hash: string, normalizedStatus: Option<PaymentStatus>, profiles: seq<Profile>, reports: seq<Report>)

  function Minor(a: Option<A.Money>): Option<int> { if a.Some? then Some(a.value.minor) else None }

  function CurrencyOf(a: Option<A.Money>): Option<string> { if a.Some? then Some(a.value.currency) else None }

  function Iban(a: Option<AccountIds>): Option<string> { if a.Some? then a.value.iban else None }

  function OtherId(a: Option<AccountIds>): Option<string> { if a.Some? then a.value.other else None }

  function FirstLine(r: Option<Remittance>): Option<string> {
    if r.Some? && r.value.unstructured != [] then Some(r.value.unstructured[0]) else None
  }

  /** `profile_from_transaction` */
  function ProfileOfTx(tx: PaymentTx, messageId: Option<string>): Profile {
    Profile(messageId, None, tx.instructionId, tx.endToEndId, tx.transactionId, Minor(tx.amount), CurrencyOf(tx.amount),
            OrElse(if tx.remittance.Some? then tx.remittance.value.reference else None, FirstLine(tx.remittance)),
            OrElse(Iban(tx.creditorAccount), Iban(tx.debtorAccount)),
            OrElse(Iban(tx.debtorAccount), OtherId(tx.debtorAccount)),
            OrElse(Iban(tx.creditorAccount), OtherId(tx.creditorAccount)))
  }

  function ProfilesOfTxs(txs: seq<PaymentTx>, messageId: Option<string>): (r: seq<Profile>)
    ensures |r| == |txs|
  {
    if txs == [] then [] else ProfilesOfTxs(txs[..|txs| - 1], messageId) + [ProfileOfTx(txs[|txs| - 1], messageId)]
  }

  function ProfileOfStatus(tx: StatusTx, messageId: Option<string>, originalMessageId: Option<string>): Profile {
    Profile(messageId, originalMessageId, tx.originalInstructionId, tx.originalEndToEndId, tx.originalTransactionId,
            Minor(tx.amount), CurrencyOf(tx.amount), tx.reference, tx.account, None, None)
  }

  function ProfilesOfStatuses(txs: seq<StatusTx>, messageId: Option<string>, originalMessageId: Option<string>): seq<Profile> {
    if txs == [] then []
    else ProfilesOfStatuses(txs[..|txs| - 1], messageId, originalMessageId)
         + [ProfileOfStatus(txs[|txs| - 1], messageId, originalMessageId)]
  }

  /** `profile_from_status_report` */
  method ProfileFromStatusReport(txs: seq<StatusTx>, messageId: Option<string>, originalMessageId: Option<string>)
    returns (profiles: seq<Profile>)
    ensures profiles == ProfilesOfStatuses(txs, messageId, originalMessageId)
  {
    profiles := [];
    for i := 0 to |txs|
      invariant profiles == ProfilesOfStatuses(txs[..i], messageId, originalMessageId)
    {
      assert txs[..i + 1][..i] == txs[..i];
      profiles := profiles + [ProfileOfStatus(txs[i], messageId, originalMessageId)];
    }
    assert txs[..|txs|] == txs;
  }

  /** The pipeline's result. A status report carries one status: that of its first transaction, or of
      the group when it lists none. */
  function AnalysisOf(msg: Message): Analysis {
    match msg
    case Payment(kind, hash, messageId, txs) =>
      Analysis(match kind case Initiation => Pain case InterbankTransfer => Pacs008 case FiTransfer => Pacs009,
               hash, None, ProfilesOfTxs(txs, messageId), [])
    case StatusReport(hash, messageId, originalMessageId, groupStatus, statuses) =>
      Analysis(Pacs002, hash, Some(if statuses != [] then statuses[0].status else groupStatus),
               ProfilesOfStatuses(statuses, messageId, originalMessageId), [])
    case AccountMessage(hash, reports) => Analysis(Camt, hash, None, [], reports)
  }

  /** `_profile_from_dict`: the two account fields are not copied. */
  function ServiceProfile(p: Profile): Profile { p.(debtorAccount := None, creditorAccount := None) }

  // ----- the tables; a row's position is its primary key -----

  datatype MessageRow = MessageRow(org: string, hash: string)

  datatype Lifecycle = Lifecycle(
    org: string, originalMessageId: Option<string>, transactionId: Option<string>, endToEndId: Option<string>,
    instructionId: Option<string>, uetr: Option<string>, debtorAccount: Option<string>, creditorAccount: Option<string>,
    amount: Option<int>, currency: Option<string>, currentStatus: PaymentStatus, createdAt: int)

  datatype EventType =
    | Initiated | InterbankTransferred | FiTransferred | StatusAccepted | StatusRejected | StatusPending | StatusProcessing
    | StatusReceived | DebitRecorded | CreditRecorded | AccountEventConfirmed

  datatype Origin = FromPayment | FromStatus | FromAccount

  /** An event; one from an account entry has a booking status instead of a payment status. */
  datatype Event = Event(org: string, lifecycle: nat, origin: Origin, eventType: EventType, status: Option<PaymentStatus>)

  datatype ReportRow = ReportRow(org: string, reportType: ReportType)

  /** Why an entry row carries its classification. */
  datatype Grounds = Confirmed | DuplicateIdentity | NoLifecycle | ByEngine(outcome: A.Outcome)

  datatype EntryRow = EntryRow(
    org: string, report: nat, identity: string, lifecycle: Option<nat>, classification: A.Classification, grounds: Grounds)

  datatype ReconciliationRow = ReconciliationRow(org: string, entry: nat, lifecycle: Option<nat>, classification: A.Classification, score: int)

  datatype CaseId = AccountCase(identityPrefix: string) | MissingCase(lifecycle: nat)

  /** The id is a key of its own, over all organizations. */
  datatype CaseRow = CaseRow(org: string, caseId: CaseId)

  datatype Db = Db(
    messages: seq<MessageRow>, lifecycles: seq<Lifecycle>, events: seq<Event>, reports: seq<ReportRow>,
    entries: seq<EntryRow>, reconciliations: seq<ReconciliationRow>, cases: seq<CaseRow>)

  const EMPTY_DB := Db([], [], [], [], [], [], [])

  // ----- `.scalars().first()`: any matching row -----

  /** Which row an unordered query yields first is left open: `hint` names it if it matches. */
  type Hint = Db -> nat

  function FirstFrom<T>(rows: seq<T>, p: T -> bool, i: nat): (r: Option<nat>)
    requires i <= |rows|
    ensures r.Some? ==> i <= r.value < |rows| && p(rows[r.value])
    decreases |rows| - i
  {
    if i == |rows| then None else if p(rows[i]) then Some(i) else FirstFrom(rows, p, i + 1)
  }

  function Pick<T>(rows: seq<T>, p: T -> bool, hint: nat): (r: Option<nat>)
    ensures r.Some? ==> r.value < |rows| && p(rows[r.value])
  {
    if hint < |rows| && p(rows[hint]) then Some(hint) else FirstFrom(rows, p, 0)
  }

  lemma {:induction false} FirstFromNone<T>(rows: seq<T>, p: T -> bool, i: nat, k: nat)
    requires i <= k < |rows| && FirstFrom(rows, p, i).None?
    ensures !p(rows[k])
    decreases |rows| - i
  {
    if i < k {
      FirstFromNone(rows, p, i + 1, k);
    }
  }

  lemma PickNone<T>(rows: seq<T>, p: T -> bool, hint: nat, k: nat)
    requires k < |rows| && Pick(rows, p, hint).None?
    ensures !p(rows[k])
  {
    FirstFromNone(rows, p, 0, k);
  }

  lemma PickNothing<T>(rows: seq<T>, p: T -> bool, hint: nat)
    requires forall i :: 0 <= i < |rows| ==> !p(rows[i])
    ensures Pick(rows, p, hint).None?
  {
  }

  /** With a single matching row the order does not matter. */
  lemma PickOnly<T>(rows: seq<T>, p: T -> bool, hint: nat, k: nat)
    requires k < |rows| && forall i :: 0 <= i < |rows| ==> (p(rows[i]) <==> i == k)
    ensures Pick(rows, p, hint) == Some(k)
  {
    if Pick(rows, p, hint).None? {
      PickNone(rows, p, hint, k);
    }
  }

  /** SQL equality with a given value; a null column never matches. */
  predicate Sql(column: Option<string>, x: Option<string>) { Given(x) && column == x }

  predicate HoldsProfile(l: Lifecycle, org: string, p: Profile) {
    l.org == org
    && (Sql(l.originalMessageId, p.originalMessageId) || Sql(l.transactionId, p.transactionId)
        || Sql(l.endToEndId, p.endToEndId) || Sql(l.instructionId, p.instructionId))
  }

  predicate HoldsEntry(l: Lifecycle, org: string, e: A.Entry) {
    l.org == org
    && (Sql(l.uetr, e.uetr) || Sql(l.transactionId, e.transactionId)
        || Sql(l.endToEndId, e.endToEndId) || Sql(l.instructionId, e.instructionId))
  }

  function ProfileQuery(org: string, p: Profile): Lifecycle -> bool { l => HoldsProfile(l, org, p) }

  function EntryQuery(org: string, e: A.Entry): Lifecycle -> bool { l => HoldsEntry(l, org, e) }

  function IdentityQuery(org: string, identity: string): EntryRow -> bool {
    (r: EntryRow) => r.org == org && r.identity == identity
  }

  function FindLifecycle(db: Db, org: string, p: Profile, hint: Hint): Option<nat> {
    Pick(db.lifecycles, ProfileQuery(org, p), hint(db))
  }

  function FindLifecycleForEntry(db: Db, org: string, e: A.Entry, hint: Hint): Option<nat> {
    Pick(db.lifecycles, EntryQuery(org, e), hint(db))
  }

  function FindEntry(db: Db, org: string, identity: string, hint: Hint): Option<nat> {
    Pick(db.entries, IdentityQuery(org, identity), hint(db))
  }

  /** `_profile_from_lifecycle` */
  function LifecycleProfile(l: Lifecycle): Profile {
    Profile(None, l.originalMessageId, l.instructionId, l.endToEndId, l.transactionId, l.amount, l.currency, None, None,
            l.debtorAccount, l.creditorAccount)
  }

  // ----- lifecycle steps -----

  /** `_event_type_for` */
  function EventTypeFor(version: Version, status: Option<PaymentStatus>): EventType {
    match version
    case Pain => Initiated
    case Pacs008 => InterbankTransferred
    case Pacs009 => FiTransferred
    case Pacs002 =>
      if status == Some(Accepted) then StatusAccepted
      else if status == Some(Rejected) then StatusRejected
      else if status == Some(Pending) then StatusPending
      else if status == Some(Processing) || status == Some(PartiallyAccepted) then StatusProcessing
      else StatusReceived
    case Camt => StatusReceived
  }

  function EventStatus(a: Analysis): Option<PaymentStatus> {
    if a.normalizedStatus.Some? then a.normalizedStatus else Some(UnknownStatus)
  }

  function WithEvent(db: Db, e: Event): Db { db.(events := db.events + [e]) }

  function WithStatus(db: Db, i: nat, status: Option<PaymentStatus>): Db {
    if status.Some? && i < |db.lifecycles|
    then db.(lifecycles := db.lifecycles[i := db.lifecycles[i].(currentStatus := status.value)]) else db
  }

  /** One status profile: an unknown parent changes nothing. */
  function OneStatus(db: Db, org: string, a: Analysis, p: Profile, hint: Hint): Db {
    match FindLifecycle(db, org, p, hint)
    case None => db
    case Some(i) =>
      WithStatus(WithEvent(db, Event(org, i, FromStatus, EventTypeFor(a.version, a.normalizedStatus), EventStatus(a))),
                 i, a.normalizedStatus)
  }

  function AfterStatuses(db: Db, org: string, a: Analysis, profiles: seq<Profile>, hint: Hint): Db {
    if profiles == [] then db
    else OneStatus(AfterStatuses(db, org, a, profiles[..|profiles| - 1], hint), org, a,
                   ServiceProfile(profiles[|profiles| - 1]), hint)
  }

  function NewLifecycle(org: string, now: int, p: Profile): Lifecycle {
    Lifecycle(org, p.originalMessageId, p.transactionId, p.endToEndId, p.instructionId, None, p.debtorAccount,
              p.creditorAccount, p.amount, p.currency, UnknownStatus, now)
  }

  /** The lifecycle a payment profile belongs to; a new one when none is found. */
  function OnePayment(db: Db, org: string, now: int, a: Analysis, p: Profile, hint: Hint): (Db, nat) {
    match FindLifecycle(db, org, p, hint)
    case None =>
      var d := db.(lifecycles := db.lifecycles + [NewLifecycle(org, now, p)]);
      (WithEvent(d, Event(org, |db.lifecycles|, FromPayment, EventTypeFor(a.version, a.normalizedStatus), EventStatus(a))),
       |db.lifecycles|)
    case Some(i) =>
      (WithEvent(db, Event(org, i, FromPayment, EventTypeFor(a.version, a.normalizedStatus), EventStatus(a))), i)
  }

  function AfterPayments(db: Db, org: string, now: int, a: Analysis, profiles: seq<Profile>, hint: Hint): (Db, Option<nat>) {
    if profiles == [] then (db, None)
    else
      var (d, _) := AfterPayments(db, org, now, a, profiles[..|profiles| - 1], hint);
      var (d', i) := OnePayment(d, org, now, a, ServiceProfile(profiles[|profiles| - 1]), hint);
      (d', Some(i))
  }

  /** `_correlate_and_build_lifecycle` */
  function AfterCorrelation(db: Db, org: string, now: int, a: Analysis, hint: Hint): Db {
    if a.version.Pacs002? then AfterStatuses(db, org, a, a.profiles, hint)
    else
      var (d, last) := AfterPayments(db, org, now, a, a.profiles, hint);
      if last.Some? then WithStatus(d, last.value, a.normalizedStatus) else d
  }

  // ----- account steps -----

  function PrefixOf(identity: string): string { if |identity| <= 16 then identity else identity[..16] }

  /** The state an operation leaves behind, and whether it ended in an error. */
  datatype Progress = Going(db: Db) | Raised(db: Db)

  predicate Held(db: Db, id: CaseId) { exists k :: 0 <= k < |db.cases| && db.cases[k].caseId == id }

  predicate HeldByOther(db: Db, org: string, id: CaseId) {
    exists k :: 0 <= k < |db.cases| && db.cases[k].caseId == id && db.cases[k].org != org
  }

  /** `_ensure_case` and its like. The look-up is by id and organization, but the table's key is the id
      alone: where another organization holds it, the new row is refused. */
  function OpenCase(db: Db, org: string, id: CaseId): Progress {
    if CaseRow(org, id) in db.cases then Going(db)
    else if Held(db, id) then Raised(db)
    else Going(db.(cases := db.cases + [CaseRow(org, id)]))
  }

  predicate IsException(c: A.Classification) {
    c.AmountMismatch? || c.CurrencyMismatch? || c.AccountMismatch? || c.DuplicateAccountEntry? || c.ReviewRequired?
  }

  function ContextOf(l: Lifecycle): A.Context {
    A.Context(l.transactionId, l.endToEndId, l.instructionId, l.uetr, None, None, l.amount, l.currency,
              l.debtorAccount, l.creditorAccount)
  }

  /** The entry repeats one of the same report type, or of the same report. */
  predicate Repeats(db: Db, x: nat, report: Report, rid: nat)
    requires x < |db.entries|
  {
    || db.entries[x].report == rid
    || (db.entries[x].report < |db.reports| && db.reports[db.entries[x].report].reportType == report.reportType)
  }

  /** An entry whose identity is already known. */
  function KnownEntry(db: Db, org: string, e: A.Entry, report: Report, rid: nat, x: nat): Progress
    requires x < |db.entries|
  {
    var l := db.entries[x].lifecycle;
    if Repeats(db, x, report, rid) then
      var d := db.(entries := db.entries + [EntryRow(org, rid, e.identityHash, l, A.DuplicateAccountEntry, DuplicateIdentity)]);
      OpenCase(d, org, AccountCase(PrefixOf(e.identityHash)))
    else
      var d := db.(entries := db.entries + [EntryRow(org, rid, e.identityHash, l, A.Reconciled, Confirmed)]);
      Going(if l.Some? then WithEvent(d, Event(org, l.value, FromAccount, AccountEventConfirmed, None)) else d)
  }

  function UnmatchedEntry(db: Db, org: string, e: A.Entry, rid: nat): Db {
    db.(entries := db.entries + [EntryRow(org, rid, e.identityHash, None, A.UnmatchedAccountEntry, NoLifecycle)],
        reconciliations := db.reconciliations + [ReconciliationRow(org, |db.entries|, None, A.UnmatchedAccountEntry, 0)])
  }

  /** The rows of an entry with a lifecycle, as the reconciliation engine classifies it. */
  function ClassifiedEntry(db: Db, org: string, e: A.Entry, rid: nat, l: nat, r: A.Outcome): Db {
    var d := db.(
      entries := db.entries + [EntryRow(org, rid, e.identityHash, Some(l), r.classification, ByEngine(r))],
      reconciliations := db.reconciliations + [ReconciliationRow(org, |db.entries|, Some(l), r.classification, r.score)]);
    WithEvent(d, Event(org, l, FromAccount, if e.creditDebit == Some(A.Debit) then DebitRecorded else CreditRecorded, None))
  }

  /** Its rows are stored before its case is opened. */
  function ReconciledEntry(db: Db, org: string, e: A.Entry, rid: nat, l: nat, r: A.Outcome): Progress {
    var d := ClassifiedEntry(db, org, e, rid, l, r);
    if IsException(r.classification) then OpenCase(d, org, AccountCase(PrefixOf(e.identityHash))) else Going(d)
  }

  /** `_ingest_entry` */
  function OneEntry(en: A.Engine, db: Db, org: string, e: A.Entry, report: Report, rid: nat, hint: Hint): Progress {
    match FindEntry(db, org, e.identityHash, hint)
    case Some(x) => KnownEntry(db, org, e, report, rid, x)
    case None =>
      match FindLifecycleForEntry(db, org, e, hint)
      case None => Going(UnmatchedEntry(db, org, e, rid))
      case Some(l) => ReconciledEntry(db, org, e, rid, l, A.Reconcile(en, e, report.account, ContextOf(db.lifecycles[l])))
  }

  /** An error ends the ingestion; what was stored before it stays. */
  function AfterEntries(en: A.Engine, db: Db, org: string, entries: seq<A.Entry>, report: Report, rid: nat, hint: Hint): Progress {
    if entries == [] then Going(db)
    else
      var p := AfterEntries(en, db, org, entries[..|entries| - 1], report, rid, hint);
      if p.Raised? then p else OneEntry(en, p.db, org, entries[|entries| - 1], report, rid, hint)
  }

  function OneReport(en: A.Engine, db: Db, org: string, report: Report, hint: Hint): Progress {
    AfterEntries(en, db.(reports := db.reports + [ReportRow(org, report.reportType)]), org, report.entries, report,
                 |db.reports|, hint)
  }

  function AfterReports(en: A.Engine, db: Db, org: string, reports: seq<Report>, hint: Hint): Progress {
    if reports == [] then Going(db)
    else
      var p := AfterReports(en, db, org, reports[..|reports| - 1], hint);
      if p.Raised? then p else OneReport(en, p.db, org, reports[|reports| - 1], hint)
  }

  // ----- whole operations -----

  /** `analyze_iso_message`. The message row is stored first, so a message whose ingestion ended in an
      error counts as ingested. */
  function Ingested(en: A.Engine, db: Db, org: string, now: int, msg: Message, hint: Hint): Progress {
    var a := AnalysisOf(msg);
    if MessageRow(org, a.hash) in db.messages then Going(db)
    else
      var d := db.(messages := db.messages + [MessageRow(org, a.hash)]);
      if a.reports != [] then AfterReports(en, d, org, a.reports, hint) else Going(AfterCorrelation(d, org, now, a, hint))
  }

  function Ingest(en: A.Engine, db: Db, org: string, now: int, msg: Message, hint: Hint): Db {
    Ingested(en, db, org, now, msg, hint).db
  }

  predicate HasEntry(db: Db, org: string, l: nat) {
    exists k :: 0 <= k < |db.entries| && db.entries[k].org == org && db.entries[k].lifecycle == Some(l)
  }

  /** Accepted, older than the window, and without an account entry. */
  predicate MissingEvent(db: Db, org: string, cutoff: int, l: nat) {
    && l < |db.lifecycles| && db.lifecycles[l].org == org && db.lifecycles[l].currentStatus == Accepted
    && db.lifecycles[l].createdAt < cutoff && !HasEntry(db, org, l)
  }

  /** No case is refused here (AccountLaws.DetectionIsNeverRefused). */
  function AfterMissing(db: Db, org: string, cutoff: int, n: nat): Db {
    if n == 0 then db
    else
      var d := AfterMissing(db, org, cutoff, n - 1);
      if MissingEvent(db, org, cutoff, n - 1) then OpenCase(d, org, MissingCase(n - 1)).db else d
  }

  /** Flagging missing events opens cases and touches nothing else. */
  lemma {:induction false} OnlyCases(db: Db, org: string, cutoff: int, n: nat)
    ensures AfterMissing(db, org, cutoff, n) == db.(cases := AfterMissing(db, org, cutoff, n).cases)
  {
    if n > 0 {
      OnlyCases(db, org, cutoff, n - 1);
    }
  }

  function Flagged(db: Db, org: string, cutoff: int, n: nat): seq<nat> {
    if n == 0 then []
    else Flagged(db, org, cutoff, n - 1) + if MissingEvent(db, org, cutoff, n - 1) then [n - 1] else []
  }

  datatype Step =
    | IngestMessage(org: string, now: int, msg: Message, hint: Hint)
    | DetectMissing(org: string, cutoff: int)

  function Apply(en: A.Engine, db: Db, step: Step): Db {
    match step
    case IngestMessage(org, now, msg, hint) => Ingest(en, db, org, now, msg, hint)
    case DetectMissing(org, cutoff) => AfterMissing(db, org, cutoff, |db.lifecycles|)
  }

  function Run(en: A.Engine, db: Db, steps: seq<Step>): Db {
    if steps == [] then db else Apply(en, Run(en, db, steps[..|steps| - 1]), steps[|steps| - 1])
  }
}
