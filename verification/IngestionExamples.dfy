// Concrete runs in which an expected property of the ingestion services fails.
module IngestionExamples {
  import opened Strings
  import opened Correlation
  import opened Ingestion
  import opened LifecycleLaws
  import A = AccountReconciliation

  // ----- two steps of a loop, written out -----

  lemma TwoPayments(db: Db, org: string, now: int, a: Analysis, x: Profile, y: Profile, hint: Hint)
    ensures AfterPayments(db, org, now, a, [x, y], hint).0
      == OnePayment(OnePayment(db, org, now, a, ServiceProfile(x), hint).0, org, now, a, ServiceProfile(y), hint).0
  {
    OnlyPayment(db, org, now, a, x, hint);
    assert [x, y][..1] == [x];
  }

  lemma OnlyPayment(db: Db, org: string, now: int, a: Analysis, x: Profile, hint: Hint)
    ensures AfterPayments(db, org, now, a, [x], hint).0 == OnePayment(db, org, now, a, ServiceProfile(x), hint).0
  {
    assert [x][..0] == [];
  }

  lemma OnlyStatus(db: Db, org: string, a: Analysis, x: Profile, hint: Hint)
    ensures AfterStatuses(db, org, a, [x], hint) == OneStatus(db, org, a, ServiceProfile(x), hint)
  {
    assert [x][..0] == [];
  }

  lemma TwoStatuses(db: Db, org: string, a: Analysis, x: Profile, y: Profile, hint: Hint)
    ensures AfterStatuses(db, org, a, [x, y], hint)
      == OneStatus(OneStatus(db, org, a, ServiceProfile(x), hint), org, a, ServiceProfile(y), hint)
  {
    OnlyStatus(db, org, a, x, hint);
    assert [x, y][..1] == [x];
  }

  lemma ProfilesOfTwo(x: PaymentTx, y: PaymentTx, id: Option<string>)
    ensures ProfilesOfTxs([x, y], id) == [ProfileOfTx(x, id), ProfileOfTx(y, id)]
  {
    assert [x][..0] == [];
    assert [x, y][..1] == [x];
  }

  lemma StatusProfilesOfOne(x: StatusTx, id: Option<string>, original: Option<string>)
    ensures ProfilesOfStatuses([x], id, original) == [ProfileOfStatus(x, id, original)]
  {
    assert [x][..0] == [];
  }

  lemma StatusProfilesOfTwo(x: StatusTx, y: StatusTx, id: Option<string>, original: Option<string>)
    ensures ProfilesOfStatuses([x, y], id, original) == [ProfileOfStatus(x, id, original), ProfileOfStatus(y, id, original)]
  {
    StatusProfilesOfOne(x, id, original);
    assert [x, y][..1] == [x];
  }

  /** A payment that matches no lifecycle starts one. */
  lemma StartsOne(db: Db, org: string, now: int, a: Analysis, p: Profile, hint: Hint)
    requires forall i :: 0 <= i < |db.lifecycles| ==> !HoldsProfile(db.lifecycles[i], org, p)
    ensures OnePayment(db, org, now, a, p, hint).0.lifecycles == db.lifecycles + [NewLifecycle(org, now, p)]
  {
    assert FindLifecycle(db, org, p, hint).None?;
  }

  /** A status whose only match is lifecycle `k` overwrites the status of that one. */
  lemma Overwrites(db: Db, org: string, a: Analysis, p: Profile, hint: Hint, k: nat)
    requires a.normalizedStatus.Some? && k < |db.lifecycles|
    requires forall i :: 0 <= i < |db.lifecycles| ==> (HoldsProfile(db.lifecycles[i], org, p) <==> i == k)
    ensures OneStatus(db, org, a, p, hint).lifecycles
      == db.lifecycles[k := db.lifecycles[k].(currentStatus := a.normalizedStatus.value)]
  {
    PickOnly(db.lifecycles, ProfileQuery(org, p), hint(db), k);
  }

  // ----- a rejected transaction that ends ACCEPTED -----

  /** A payment and a status that carry nothing but a transaction id. */
  function BareTx(id: string): PaymentTx { PaymentTx(None, None, Some(id), None, None, None, None) }

  function BareStatus(id: string, status: PaymentStatus): StatusTx {
    StatusTx(None, None, Some(id), status, None, None, None)
  }

  function BareLifecycle(id: string, status: PaymentStatus): Lifecycle {
    Lifecycle("org", None, Some(id), None, None, None, None, None, None, None, status, 0)
  }

  function PaymentOfTwo(): Message { Payment(InterbankTransfer, "payment", None, [BareTx("A"), BareTx("B")]) }

  function ReportOfTwo(): Message {
    StatusReport("report", None, None, Pending, [BareStatus("A", Accepted), BareStatus("B", Rejected)])
  }

  lemma TwoLifecycles(en: A.Engine, hint: Hint)
    ensures Ingest(en, EMPTY_DB, "org", 0, PaymentOfTwo(), hint).lifecycles
      == [BareLifecycle("A", UnknownStatus), BareLifecycle("B", UnknownStatus)]
  {
    var a := AnalysisOf(PaymentOfTwo());
    var x, y := ProfileOfTx(BareTx("A"), None), ProfileOfTx(BareTx("B"), None);
    ProfilesOfTwo(BareTx("A"), BareTx("B"), None);
    var d := EMPTY_DB.(messages := EMPTY_DB.messages + [MessageRow("org", "payment")]);
    StartsOne(d, "org", 0, a, ServiceProfile(x), hint);
    StartsOne(OnePayment(d, "org", 0, a, ServiceProfile(x), hint).0, "org", 0, a, ServiceProfile(y), hint);
    TwoPayments(d, "org", 0, a, x, y, hint);
  }

  lemma BothOverwritten(db: Db, a: Analysis, hint: Hint)
    requires db.lifecycles == [BareLifecycle("A", UnknownStatus), BareLifecycle("B", UnknownStatus)]
    requires a.normalizedStatus == Some(Accepted)
    requires a.profiles == [ProfileOfStatus(BareStatus("A", Accepted), None, None),
                            ProfileOfStatus(BareStatus("B", Rejected), None, None)]
    ensures AfterStatuses(db, "org", a, a.profiles, hint).lifecycles == [BareLifecycle("A", Accepted), BareLifecycle("B", Accepted)]
  {
    var x, y := a.profiles[0], a.profiles[1];
    Overwrites(db, "org", a, ServiceProfile(x), hint, 0);
    Overwrites(OneStatus(db, "org", a, ServiceProfile(x), hint), "org", a, ServiceProfile(y), hint, 1);
    TwoStatuses(db, "org", a, x, y, hint);
  }

  /** A report that accepts the first transaction and rejects the second: both lifecycles end ACCEPTED. */
  lemma RejectionLost(en: A.Engine, hint: Hint)
    ensures Ingest(en, Ingest(en, EMPTY_DB, "org", 0, PaymentOfTwo(), hint), "org", 1, ReportOfTwo(), hint).lifecycles
      == [BareLifecycle("A", Accepted), BareLifecycle("B", Accepted)]
  {
    var db := Ingest(en, EMPTY_DB, "org", 0, PaymentOfTwo(), hint);
    TwoLifecycles(en, hint);
    IngestMessages(en, EMPTY_DB, "org", 0, PaymentOfTwo(), hint);
    StatusProfilesOfTwo(BareStatus("A", Accepted), BareStatus("B", Rejected), None, None);
    BothOverwritten(db.(messages := db.messages + [MessageRow("org", "report")]), AnalysisOf(ReportOfTwo()), hint);
  }

  // ----- a payment that is counted twice -----

  function Nameless(hash: string): Message {
    Payment(InterbankTransfer, hash, None, [PaymentTx(None, None, None, None, None, None, None)])
  }

  lemma OneNameless(en: A.Engine, db: Db, now: int, hash: string, hint: Hint)
    requires MessageRow("org", hash) !in db.messages
    ensures |Ingest(en, db, "org", now, Nameless(hash), hint).lifecycles| == |db.lifecycles| + 1
  {
    var tx := PaymentTx(None, None, None, None, None, None, None);
    assert [tx][..0] == [];
    var d := db.(messages := db.messages + [MessageRow("org", hash)]);
    var a := AnalysisOf(Nameless(hash));
    OnlyPayment(d, "org", now, a, ProfileOfTx(tx, None), hint);
    StartsOne(d, "org", now, a, ServiceProfile(ProfileOfTx(tx, None)), hint);
  }

  /** A payment without any identifier, received twice, leaves two lifecycles. */
  lemma NamelessReplay(en: A.Engine, hint: Hint)
    ensures var once := Ingest(en, EMPTY_DB, "org", 0, Nameless("first"), hint);
      |once.lifecycles| == 1 && |Ingest(en, once, "org", 1, Nameless("second"), hint).lifecycles| == 2
  {
    OneNameless(en, EMPTY_DB, 0, "first", hint);
    var once := Ingest(en, EMPTY_DB, "org", 0, Nameless("first"), hint);
    IngestMessages(en, EMPTY_DB, "org", 0, Nameless("first"), hint);
    OneNameless(en, once, 1, "second", hint);
  }

  // ----- two classifications, one case; two organizations, one case -----

  function PaidOne(): Message {
    Payment(InterbankTransfer, "payment", None, [PaymentTx(None, None, Some("T"), Some(A.Money(100, "EUR")), None, None, None)])
  }

  function BookedTwo(): A.Entry {
    A.Entry("identity", None, Some("T"), None, None, None, None, Some(A.Money(200, "EUR")), None, None)
  }

  function PaidLifecycle(org: string): Lifecycle {
    Lifecycle(org, None, Some("T"), None, None, None, None, None, Some(100), Some("EUR"), UnknownStatus, 0)
  }

  /** A statement that books the wrong amount twice. */
  function Booked(): Report { Report(Statement, None, [BookedTwo(), BookedTwo()]) }

  function BookedMessage(): Message { AccountMessage("camt", [Booked()]) }

  ghost predicate NothingOf(db: Db, org: string) {
    && (forall i :: 0 <= i < |db.lifecycles| ==> db.lifecycles[i].org != org)
    && (forall i :: 0 <= i < |db.entries| ==> db.entries[i].org != org)
    && (forall i :: 0 <= i < |db.messages| ==> db.messages[i].org != org)
  }

  lemma OnePaid(en: A.Engine, db: Db, org: string, hint: Hint)
    requires NothingOf(db, org)
    ensures var db' := Ingest(en, db, org, 0, PaidOne(), hint);
      && db'.lifecycles == db.lifecycles + [PaidLifecycle(org)] && db'.messages == db.messages + [MessageRow(org, "payment")]
      && db'.entries == db.entries && db'.cases == db.cases && db'.reports == db.reports
  {
    var tx := PaidOne().transactions[0];
    assert [tx][..0] == [];
    var d := db.(messages := db.messages + [MessageRow(org, "payment")]);
    var a := AnalysisOf(PaidOne());
    OnlyPayment(d, org, 0, a, ProfileOfTx(tx, None), hint);
    StartsOne(d, org, 0, a, ServiceProfile(ProfileOfTx(tx, None)), hint);
  }

  lemma Mismatch(en: A.Engine, org: string)
    ensures A.Reconcile(en, BookedTwo(), None, ContextOf(PaidLifecycle(org))).classification == A.AmountMismatch
  {
    var c := ContextOf(PaidLifecycle(org));
    assert A.IdConflicts(en, BookedTwo(), c) == [];
    assert A.ConflictsOf(en, BookedTwo(), None, c) == [A.AmountConflict];
  }

  ghost predicate StoredLast(db: Db, db': Db, org: string, rid: nat, c: A.Classification) {
    && |db'.entries| == |db.entries| + 1 && db.entries <= db'.entries
    && db'.lifecycles == db.lifecycles && db'.messages == db.messages
    && var r := db'.entries[|db.entries|];
    r.org == org && r.identity == "identity" && r.report == rid && r.classification == c
  }

  ghost predicate StoredTwo(db: Db, db': Db, org: string) {
    && |db'.entries| == |db.entries| + 2 && db.entries <= db'.entries
    && db'.lifecycles == db.lifecycles && db'.messages == db.messages
    && db'.entries[|db.entries|].org == org && db'.entries[|db.entries| + 1].org == org
    && db'.entries[|db.entries|].classification == A.AmountMismatch
    && db'.entries[|db.entries| + 1].classification == A.DuplicateAccountEntry
  }

  /** The organization's only row is its payment, and that is the last lifecycle. */
  ghost predicate OnlyPaid(db: Db, org: string) {
    && (forall i :: 0 <= i < |db.entries| ==> db.entries[i].org != org)
    && db.lifecycles != [] && db.lifecycles[|db.lifecycles| - 1] == PaidLifecycle(org)
    && (forall i :: 0 <= i < |db.lifecycles| - 1 ==> db.lifecycles[i].org != org)
  }

  lemma FirstBooking(en: A.Engine, db: Db, org: string, rid: nat, hint: Hint)
    requires OnlyPaid(db, org)
    ensures var p := OneEntry(en, db, org, BookedTwo(), Booked(), rid, hint);
      MismatchLeft(db, p, org, rid)
  {
    PaymentFound(db, org, hint);
    FreshHere(db, org, hint);
    Mismatch(en, org);
    MismatchStored(en, db, org, BookedTwo(), Booked(), rid, hint, |db.lifecycles| - 1);
  }

  /** An entry that is new, has a lifecycle and books another amount. */
  lemma MismatchStored(en: A.Engine, db: Db, org: string, e: A.Entry, report: Report, rid: nat, hint: Hint, l: nat)
    requires FindEntry(db, org, e.identityHash, hint).None? && FindLifecycleForEntry(db, org, e, hint) == Some(l)
    requires A.Reconcile(en, e, report.account, ContextOf(db.lifecycles[l])).classification == A.AmountMismatch
    requires e.identityHash == "identity"
    ensures var p := OneEntry(en, db, org, e, report, rid, hint); MismatchLeft(db, p, org, rid)
  {
    MismatchRows(db, org, e, rid, l, A.Reconcile(en, e, report.account, ContextOf(db.lifecycles[l])));
  }

  ghost predicate MismatchLeft(db: Db, p: Progress, org: string, rid: nat) {
    && StoredLast(db, p.db, org, rid, A.AmountMismatch)
    && var q := OpenCase(db, org, AccountCase("identity"));
    (p.Raised? <==> q.Raised?) && p.db.cases == q.db.cases
  }

  lemma MismatchRows(db: Db, org: string, e: A.Entry, rid: nat, l: nat, o: A.Outcome)
    requires o.classification == A.AmountMismatch && e.identityHash == "identity"
    ensures MismatchLeft(db, ReconciledEntry(db, org, e, rid, l, o), org, rid)
  {
    assert PrefixOf(e.identityHash) == "identity";
    RowsThenCase(db, ClassifiedEntry(db, org, e, rid, l, o), org, AccountCase("identity"));
  }

  /** Storing rows does not change who may open a case. */
  lemma RowsThenCase(db: Db, d: Db, org: string, id: CaseId)
    requires d.cases == db.cases
    ensures var p, q := OpenCase(d, org, id), OpenCase(db, org, id);
      (p.Raised? <==> q.Raised?) && p.db.cases == q.db.cases && p.db == d.(cases := p.db.cases)
  {
    assert Held(d, id) == Held(db, id);
  }

  lemma PaymentFound(db: Db, org: string, hint: Hint)
    requires OnlyPaid(db, org)
    ensures FindLifecycleForEntry(db, org, BookedTwo(), hint) == Some(|db.lifecycles| - 1)
  {
    PickOnly(db.lifecycles, EntryQuery(org, BookedTwo()), hint(db), |db.lifecycles| - 1);
  }

  lemma FreshHere(db: Db, org: string, hint: Hint)
    requires forall i :: 0 <= i < |db.entries| ==> db.entries[i].org != org
    ensures FindEntry(db, org, "identity", hint).None?
  {
    PickNothing(db.entries, IdentityQuery(org, "identity"), hint(db));
  }

  lemma SecondBooking(en: A.Engine, db: Db, org: string, rid: nat, hint: Hint)
    requires db.entries != []
    requires var r := db.entries[|db.entries| - 1]; r.org == org && r.identity == "identity" && r.report == rid
    requires forall i :: 0 <= i < |db.entries| - 1 ==> db.entries[i].org != org
    requires CaseRow(org, AccountCase("identity")) in db.cases
    ensures var p := OneEntry(en, db, org, BookedTwo(), Booked(), rid, hint);
      p.Going? && StoredLast(db, p.db, org, rid, A.DuplicateAccountEntry) && p.db.cases == db.cases
  {
    PickOnly(db.entries, IdentityQuery(org, "identity"), hint(db), |db.entries| - 1);
  }

  lemma BookedTwice(en: A.Engine, db: Db, org: string, rid: nat, hint: Hint)
    requires OnlyPaid(db, org) && !Held(db, AccountCase("identity"))
    ensures var p := OneEntry(en, db, org, BookedTwo(), Booked(), rid, hint);
      var q := OneEntry(en, p.db, org, BookedTwo(), Booked(), rid, hint);
      && p.Going? && q.Going? && StoredTwo(db, q.db, org)
      && q.db.cases == db.cases + [CaseRow(org, AccountCase("identity"))]
  {
    FirstBooking(en, db, org, rid, hint);
    var d := OneEntry(en, db, org, BookedTwo(), Booked(), rid, hint).db;
    assert d.cases[|db.cases|] == CaseRow(org, AccountCase("identity"));
    SecondBooking(en, d, org, rid, hint);
  }

  lemma TwoEntries(en: A.Engine, db: Db, org: string, report: Report, x: A.Entry, y: A.Entry, rid: nat, hint: Hint)
    ensures AfterEntries(en, db, org, [x, y], report, rid, hint)
      == var p := OneEntry(en, db, org, x, report, rid, hint);
         if p.Raised? then p else OneEntry(en, p.db, org, y, report, rid, hint)
  {
    OnlyEntry(en, db, org, report, x, rid, hint);
    assert [x, y][..1] == [x];
  }

  lemma OnlyEntry(en: A.Engine, db: Db, org: string, report: Report, x: A.Entry, rid: nat, hint: Hint)
    ensures AfterEntries(en, db, org, [x], report, rid, hint) == OneEntry(en, db, org, x, report, rid, hint)
  {
    assert [x][..0] == [];
  }

  lemma OnlyReport(en: A.Engine, db: Db, org: string, report: Report, hint: Hint)
    ensures AfterReports(en, db, org, [report], hint) == OneReport(en, db, org, report, hint)
  {
    assert [report][..0] == [];
  }

  /** The message and the report row of the statement. */
  function Arrived(db: Db, org: string): Db {
    db.(messages := db.messages + [MessageRow(org, "camt")], reports := db.reports + [ReportRow(org, Statement)])
  }

  lemma StatementArrives(en: A.Engine, db: Db, org: string, now: int, hint: Hint)
    requires MessageRow(org, "camt") !in db.messages
    ensures var p := OneEntry(en, Arrived(db, org), org, BookedTwo(), Booked(), |db.reports|, hint);
      Ingested(en, db, org, now, BookedMessage(), hint)
        == if p.Raised? then p else OneEntry(en, p.db, org, BookedTwo(), Booked(), |db.reports|, hint)
  {
    var d := db.(messages := db.messages + [MessageRow(org, "camt")]);
    assert Arrived(db, org) == d.(reports := d.reports + [ReportRow(org, Statement)]);
    OnlyReport(en, d, org, Booked(), hint);
    TwoEntries(en, Arrived(db, org), org, Booked(), BookedTwo(), BookedTwo(), |db.reports|, hint);
  }

  /** The organization's payment, and then the statement. */
  function PaidAndBooked(en: A.Engine, db: Db, org: string, hint: Hint): Progress {
    Ingested(en, Ingest(en, db, org, 0, PaidOne(), hint), org, 1, BookedMessage(), hint)
  }

  lemma FirstOrganization(en: A.Engine, db: Db, org: string, hint: Hint)
    requires NothingOf(db, org) && !Held(db, AccountCase("identity"))
    ensures var p := PaidAndBooked(en, db, org, hint);
      && p.Going? && |p.db.entries| == |db.entries| + 2 && db.entries <= p.db.entries
      && p.db.entries[|db.entries|].org == org && p.db.entries[|db.entries| + 1].org == org
      && p.db.entries[|db.entries|].classification == A.AmountMismatch
      && p.db.entries[|db.entries| + 1].classification == A.DuplicateAccountEntry
      && p.db.cases == db.cases + [CaseRow(org, AccountCase("identity"))]
      && p.db.lifecycles == db.lifecycles + [PaidLifecycle(org)]
      && p.db.messages == db.messages + [MessageRow(org, "payment"), MessageRow(org, "camt")]
  {
    var paid := Ingest(en, db, org, 0, PaidOne(), hint);
    OnePaid(en, db, org, hint);
    StatementArrives(en, paid, org, 1, hint);
    assert !Held(Arrived(paid, org), AccountCase("identity"));
    BookedTwice(en, Arrived(paid, org), org, |db.reports|, hint);
  }

  lemma SecondOrganization(en: A.Engine, db: Db, org: string, hint: Hint)
    requires NothingOf(db, org) && Held(db, AccountCase("identity")) && CaseRow(org, AccountCase("identity")) !in db.cases
    ensures var p := PaidAndBooked(en, db, org, hint);
      && p.Raised? && |p.db.entries| == |db.entries| + 1
      && p.db.entries[|db.entries|].org == org && p.db.entries[|db.entries|].classification == A.AmountMismatch
      && p.db.cases == db.cases && MessageRow(org, "camt") in p.db.messages
  {
    var paid := Ingest(en, db, org, 0, PaidOne(), hint);
    OnePaid(en, db, org, hint);
    StatementArrives(en, paid, org, 1, hint);
    var k :| 0 <= k < |db.cases| && db.cases[k].caseId == AccountCase("identity");
    assert Arrived(paid, org).cases[k].caseId == AccountCase("identity");
    FirstBooking(en, Arrived(paid, org), org, |db.reports|, hint);
    var m := Arrived(paid, org).messages;
    assert m[|m| - 1] == MessageRow(org, "camt");
  }

  /** One statement that books the wrong amount twice: an AMOUNT_MISMATCH and a DUPLICATE entry, and
      a single case for both. */
  lemma TwoClassificationsOneCase(en: A.Engine, hint: Hint)
    ensures var p := PaidAndBooked(en, EMPTY_DB, "org", hint);
      && p.Going? && |p.db.entries| == 2 && |p.db.cases| == 1
      && p.db.entries[0].classification == A.AmountMismatch && p.db.entries[1].classification == A.DuplicateAccountEntry
  {
    FirstOrganization(en, EMPTY_DB, "org", hint);
  }

  lemma TwoOrganizations(en: A.Engine, x: string, y: string, hint: Hint)
    requires x != y
    ensures var a := PaidAndBooked(en, EMPTY_DB, x, hint); var b := PaidAndBooked(en, a.db, y, hint);
      && a.Going? && b.Raised? && |b.db.entries| == 3
      && b.db.entries[2].org == y && b.db.entries[2].classification == A.AmountMismatch
      && b.db.cases == [CaseRow(x, AccountCase("identity"))]
      && MessageRow(y, "camt") in b.db.messages
  {
    AfterFirst(en, x, y, hint);
    SecondOrganization(en, PaidAndBooked(en, EMPTY_DB, x, hint).db, y, hint);
  }

  lemma NothingElse(db: Db, x: string, y: string)
    requires x != y && db.lifecycles == [PaidLifecycle(x)]
    requires |db.entries| == 2 && db.entries[0].org == x && db.entries[1].org == x
    requires |db.messages| == 2 && db.messages[0].org == x && db.messages[1].org == x
    ensures NothingOf(db, y)
  {
  }

  lemma AfterFirst(en: A.Engine, x: string, y: string, hint: Hint)
    requires x != y
    ensures var a := PaidAndBooked(en, EMPTY_DB, x, hint);
      && a.Going? && |a.db.entries| == 2 && a.db.cases == [CaseRow(x, AccountCase("identity"))]
      && NothingOf(a.db, y) && Held(a.db, AccountCase("identity"))
  {
    var db := PaidAndBooked(en, EMPTY_DB, x, hint).db;
    FirstOrganization(en, EMPTY_DB, x, hint);
    NothingElse(db, x, y);
    assert db.cases[0].caseId == AccountCase("identity");
  }

  /** Two organizations receive the same payment and statement. The second one's exception is stored
      without a case, the ingestion ends in an error, the rest of the statement is never stored, and
      sending it again changes nothing. */
  lemma TwoOrganizationsOneCase(en: A.Engine, hint: Hint)
    ensures var a := PaidAndBooked(en, EMPTY_DB, "A", hint); var b := PaidAndBooked(en, a.db, "B", hint);
      && a.Going? && b.Raised? && |b.db.entries| == 3
      && b.db.entries[2].org == "B" && b.db.entries[2].classification == A.AmountMismatch
      && b.db.cases == [CaseRow("A", AccountCase("identity"))]
      && Ingested(en, b.db, "B", 2, BookedMessage(), hint) == Going(b.db)
  {
    TwoOrganizations(en, "A", "B", hint);
  }

  // ----- the largest score a persisted reconciliation can have -----

  /** A lifecycle as the service stores it, and an entry that agrees with all it carries: 55.81. */
  lemma LargestScore(en: A.Engine) returns (l: Lifecycle, e: A.Entry)
    ensures Bare(l) && A.Reconcile(en, e, None, ContextOf(l)).score == 5581
    ensures A.Reconcile(en, e, None, ContextOf(l)).classification == A.Reconciled
  {
    var x := Some("X");
    l := Lifecycle("org", None, x, x, x, None, None, None, Some(100), Some("EUR"), UnknownStatus, 0);
    e := A.Entry("identity", None, x, x, x, None, None, Some(A.Money(100, "EUR")), None, None);
    A.BareContextScore(en, e, None, ContextOf(l));
    A.ReconciledMeans(en, e, None, ContextOf(l));
  }
}
