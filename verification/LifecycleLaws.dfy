// What holds of payment lifecycles in every reachable state of the ingestion services.
module LifecycleLaws {
  import opened Strings
  import opened Correlation
  import opened Ingestion
  import A = AccountReconciliation

  // ----- the invariant -----

  /** Lifecycle rows never carry an original message id, a UETR or an account. */
  predicate Bare(l: Lifecycle) {
    l.originalMessageId.None? && l.uetr.None? && l.debtorAccount.None? && l.creditorAccount.None?
  }

  /** The status of the latest pacs.002 event of lifecycle `i`. */
  function LatestStatus(events: seq<Event>, i: nat): PaymentStatus {
    if events == [] then UnknownStatus
    else
      var e := events[|events| - 1];
      if e.lifecycle == i && e.origin.FromStatus? then if e.status.Some? then e.status.value else UnknownStatus
      else LatestStatus(events[..|events| - 1], i)
  }

  predicate StatusAt(db: Db, i: nat)
    requires i < |db.lifecycles|
  {
    db.lifecycles[i].currentStatus == LatestStatus(db.events, i)
  }

  predicate Inside(l: Option<nat>, n: nat) { l.Some? ==> l.value < n }

  ghost predicate AllBare(db: Db) { forall i :: 0 <= i < |db.lifecycles| ==> Bare(db.lifecycles[i]) }

  ghost predicate AllCurrent(db: Db) { forall i :: 0 <= i < |db.lifecycles| ==> StatusAt(db, i) }

  ghost predicate AllInside(db: Db) {
    && (forall i :: 0 <= i < |db.events| ==> db.events[i].lifecycle < |db.lifecycles|)
    && (forall i :: 0 <= i < |db.entries| ==> Inside(db.entries[i].lifecycle, |db.lifecycles|))
  }

  ghost predicate LifeInv(db: Db) { AllBare(db) && AllCurrent(db) && AllInside(db) }

  /** Nothing about lifecycles differs. */
  predicate SameLife(db: Db, db': Db) {
    db'.lifecycles == db.lifecycles && db'.events == db.events && db'.entries == db.entries
  }

  lemma SameLifeInv(db: Db, db': Db)
    requires LifeInv(db) && SameLife(db, db')
    ensures LifeInv(db')
  {
    forall i | 0 <= i < |db'.lifecycles| ensures StatusAt(db', i) {
      assert StatusAt(db, i);
    }
  }

  // ----- identifiers never change -----

  predicate SameIdentifiers(l: Lifecycle, l': Lifecycle) { l' == l.(currentStatus := l'.currentStatus) }

  /** Rows are only added; stored lifecycles keep everything but their status. */
  ghost predicate Extends(db: Db, db': Db) {
    && |db.lifecycles| <= |db'.lifecycles|
    && forall i :: 0 <= i < |db.lifecycles| ==> SameIdentifiers(db.lifecycles[i], db'.lifecycles[i])
  }

  lemma ExtendsTwice(a: Db, b: Db, c: Db)
    requires Extends(a, b) && Extends(b, c)
    ensures Extends(a, c)
  {
    forall i | 0 <= i < |a.lifecycles| ensures SameIdentifiers(a.lifecycles[i], c.lifecycles[i]) {
      assert SameIdentifiers(a.lifecycles[i], b.lifecycles[i]) && SameIdentifiers(b.lifecycles[i], c.lifecycles[i]);
    }
  }

  // ----- single steps -----

  lemma LatestAfter(events: seq<Event>, e: Event, i: nat)
    ensures LatestStatus(events + [e], i)
      == if e.lifecycle == i && e.origin.FromStatus? then if e.status.Some? then e.status.value else UnknownStatus
         else LatestStatus(events, i)
  {
    assert (events + [e])[..|events + [e]| - 1] == events;
  }

  /** Adding an event that is not a status event. */
  lemma OtherEvent(db: Db, e: Event)
    requires LifeInv(db) && e.lifecycle < |db.lifecycles| && !e.origin.FromStatus?
    ensures LifeInv(WithEvent(db, e)) && Extends(db, WithEvent(db, e))
  {
    var db' := WithEvent(db, e);
    forall i | 0 <= i < |db'.lifecycles| ensures StatusAt(db', i) {
      LatestAfter(db.events, e, i);
      assert StatusAt(db, i);
    }
  }

  /** A status event together with the status it sets. */
  lemma StatusEvent(db: Db, e: Event)
    requires LifeInv(db) && e.lifecycle < |db.lifecycles| && e.origin.FromStatus? && e.status.Some?
    ensures var db' := WithStatus(WithEvent(db, e), e.lifecycle, e.status); LifeInv(db') && Extends(db, db')
  {
    var db' := WithStatus(WithEvent(db, e), e.lifecycle, e.status);
    forall i | 0 <= i < |db'.lifecycles| ensures StatusAt(db', i) && Bare(db'.lifecycles[i]) {
      LatestAfter(db.events, e, i);
      assert StatusAt(db, i) && Bare(db.lifecycles[i]);
    }
  }

  /** Nothing was recorded yet on a lifecycle that does not exist. */
  lemma {:induction false} NothingLatest(events: seq<Event>, n: nat)
    requires forall i :: 0 <= i < |events| ==> events[i].lifecycle < n
    ensures LatestStatus(events, n) == UnknownStatus
  {
    if events != [] {
      NothingLatest(events[..|events| - 1], n);
    }
  }

  lemma AddLifecycle(db: Db, l: Lifecycle)
    requires LifeInv(db) && Bare(l) && l.currentStatus == UnknownStatus
    ensures var db' := db.(lifecycles := db.lifecycles + [l]); LifeInv(db') && Extends(db, db')
  {
    var db' := db.(lifecycles := db.lifecycles + [l]);
    NothingLatest(db.events, |db.lifecycles|);
    forall i | 0 <= i < |db'.lifecycles| ensures StatusAt(db', i) && Bare(db'.lifecycles[i]) {
      if i < |db.lifecycles| {
        assert StatusAt(db, i) && Bare(db.lifecycles[i]);
      }
    }
  }

  lemma AddEntry(db: Db, r: EntryRow, recons: seq<ReconciliationRow>)
    requires LifeInv(db) && Inside(r.lifecycle, |db.lifecycles|)
    ensures var db' := db.(entries := db.entries + [r], reconciliations := recons); LifeInv(db') && Extends(db, db')
  {
    var db' := db.(entries := db.entries + [r], reconciliations := recons);
    forall i | 0 <= i < |db'.lifecycles| ensures StatusAt(db', i) {
      assert StatusAt(db, i);
    }
  }

  // ----- profiles -----

  /** What the pipeline guarantees about its results. */
  ghost predicate FromPipeline(a: Analysis) {
    && (a.version.Pacs002? ==> a.normalizedStatus.Some?)
    && (!a.version.Pacs002? ==>
          a.normalizedStatus.None? && forall i :: 0 <= i < |a.profiles| ==> a.profiles[i].originalMessageId.None?)
  }

  lemma {:induction false} TxProfilesAt(txs: seq<PaymentTx>, messageId: Option<string>, i: nat)
    requires i < |txs|
    ensures ProfilesOfTxs(txs, messageId)[i] == ProfileOfTx(txs[i], messageId)
  {
    if i < |txs| - 1 {
      TxProfilesAt(txs[..|txs| - 1], messageId, i);
    }
  }

  lemma PipelineResult(msg: Message)
    ensures FromPipeline(AnalysisOf(msg))
  {
    if msg.Payment? {
      forall i | 0 <= i < |msg.transactions| ensures AnalysisOf(msg).profiles[i].originalMessageId.None? {
        TxProfilesAt(msg.transactions, msg.messageId, i);
      }
    }
  }

  // ----- the operations -----

  lemma OneStatusInv(db: Db, org: string, a: Analysis, p: Profile, hint: Hint)
    requires LifeInv(db) && a.normalizedStatus.Some?
    ensures var db' := OneStatus(db, org, a, p, hint);
      LifeInv(db') && Extends(db, db') && |db'.lifecycles| == |db.lifecycles|
  {
    var found := FindLifecycle(db, org, p, hint);
    if found.Some? {
      StatusEvent(db, Event(org, found.value, FromStatus, EventTypeFor(a.version, a.normalizedStatus), a.normalizedStatus));
    }
  }

  lemma {:induction false} AfterStatusesInv(db: Db, org: string, a: Analysis, profiles: seq<Profile>, hint: Hint)
    requires LifeInv(db) && a.normalizedStatus.Some?
    ensures var db' := AfterStatuses(db, org, a, profiles, hint);
      LifeInv(db') && Extends(db, db') && |db'.lifecycles| == |db.lifecycles|
  {
    if profiles != [] {
      var front := profiles[..|profiles| - 1];
      AfterStatusesInv(db, org, a, front, hint);
      var d := AfterStatuses(db, org, a, front, hint);
      OneStatusInv(d, org, a, ServiceProfile(profiles[|profiles| - 1]), hint);
      ExtendsTwice(db, d, AfterStatuses(db, org, a, profiles, hint));
    }
  }

  lemma OnePaymentInv(db: Db, org: string, now: int, a: Analysis, p: Profile, hint: Hint)
    requires LifeInv(db) && p.originalMessageId.None? && p.debtorAccount.None? && p.creditorAccount.None?
    ensures var (db', i) := OnePayment(db, org, now, a, p, hint);
      LifeInv(db') && Extends(db, db') && i < |db'.lifecycles|
  {
    var found := FindLifecycle(db, org, p, hint);
    var event := EventTypeFor(a.version, a.normalizedStatus);
    if found.Some? {
      OtherEvent(db, Event(org, found.value, FromPayment, event, EventStatus(a)));
    } else {
      var d := db.(lifecycles := db.lifecycles + [NewLifecycle(org, now, p)]);
      AddLifecycle(db, NewLifecycle(org, now, p));
      OtherEvent(d, Event(org, |db.lifecycles|, FromPayment, event, EventStatus(a)));
      ExtendsTwice(db, d, OnePayment(db, org, now, a, p, hint).0);
    }
  }

  ghost predicate NoOriginals(profiles: seq<Profile>) {
    forall i :: 0 <= i < |profiles| ==> profiles[i].originalMessageId.None?
  }

  lemma {:induction false} AfterPaymentsInv(db: Db, org: string, now: int, a: Analysis, profiles: seq<Profile>, hint: Hint)
    requires LifeInv(db) && NoOriginals(profiles)
    ensures var db' := AfterPayments(db, org, now, a, profiles, hint).0; LifeInv(db') && Extends(db, db')
  {
    if profiles != [] {
      var front := profiles[..|profiles| - 1];
      AfterPaymentsInv(db, org, now, a, front, hint);
      var d := AfterPayments(db, org, now, a, front, hint).0;
      OnePaymentInv(d, org, now, a, ServiceProfile(profiles[|profiles| - 1]), hint);
      ExtendsTwice(db, d, AfterPayments(db, org, now, a, profiles, hint).0);
    }
  }

  /** Whatever the state and the analysis: stored lifecycles keep everything but their status, and a
      status report adds none. */
  lemma {:induction false} StatusesExtend(db: Db, org: string, a: Analysis, profiles: seq<Profile>, hint: Hint)
    ensures var db' := AfterStatuses(db, org, a, profiles, hint); Extends(db, db') && |db'.lifecycles| == |db.lifecycles|
  {
    if profiles != [] {
      StatusesExtend(db, org, a, profiles[..|profiles| - 1], hint);
      var d := AfterStatuses(db, org, a, profiles[..|profiles| - 1], hint);
      ExtendsTwice(db, d, AfterStatuses(db, org, a, profiles, hint));
    }
  }

  lemma {:induction false} PaymentsExtend(db: Db, org: string, now: int, a: Analysis, profiles: seq<Profile>, hint: Hint)
    ensures Extends(db, AfterPayments(db, org, now, a, profiles, hint).0)
  {
    if profiles != [] {
      PaymentsExtend(db, org, now, a, profiles[..|profiles| - 1], hint);
      var d := AfterPayments(db, org, now, a, profiles[..|profiles| - 1], hint).0;
      ExtendsTwice(db, d, AfterPayments(db, org, now, a, profiles, hint).0);
    }
  }

  lemma CorrelationExtends(db: Db, org: string, now: int, a: Analysis, hint: Hint)
    ensures var db' := AfterCorrelation(db, org, now, a, hint);
      Extends(db, db') && (a.version.Pacs002? ==> |db'.lifecycles| == |db.lifecycles|)
  {
    if a.version.Pacs002? {
      StatusesExtend(db, org, a, a.profiles, hint);
    } else {
      PaymentsExtend(db, org, now, a, a.profiles, hint);
      var d := AfterPayments(db, org, now, a, a.profiles, hint).0;
      ExtendsTwice(db, d, AfterCorrelation(db, org, now, a, hint));
    }
  }

  lemma AfterCorrelationInv(db: Db, org: string, now: int, a: Analysis, hint: Hint)
    requires LifeInv(db) && FromPipeline(a)
    ensures var db' := AfterCorrelation(db, org, now, a, hint); LifeInv(db') && Extends(db, db')
    ensures a.version.Pacs002? || a.profiles == [] ==> |AfterCorrelation(db, org, now, a, hint).lifecycles| == |db.lifecycles|
  {
    if a.version.Pacs002? {
      AfterStatusesInv(db, org, a, a.profiles, hint);
    } else {
      AfterPaymentsInv(db, org, now, a, a.profiles, hint);
    }
  }

  lemma OpenCaseInv(db: Db, org: string, id: CaseId)
    requires LifeInv(db)
    ensures var db' := OpenCase(db, org, id).db; LifeInv(db') && SameLife(db, db')
  {
    SameLifeInv(db, OpenCase(db, org, id).db);
  }

  lemma KnownEntryInv(db: Db, org: string, e: A.Entry, report: Report, rid: nat, x: nat)
    requires LifeInv(db) && x < |db.entries|
    ensures var db' := KnownEntry(db, org, e, report, rid, x).db;
      LifeInv(db') && Extends(db, db') && |db'.lifecycles| == |db.lifecycles|
  {
    var l := db.entries[x].lifecycle;
    var r := if Repeats(db, x, report, rid)
             then EntryRow(org, rid, e.identityHash, l, A.DuplicateAccountEntry, DuplicateIdentity)
             else EntryRow(org, rid, e.identityHash, l, A.Reconciled, Confirmed);
    AddEntry(db, r, db.reconciliations);
    var d := db.(entries := db.entries + [r]);
    if Repeats(db, x, report, rid) {
      OpenCaseInv(d, org, AccountCase(PrefixOf(e.identityHash)));
    } else if l.Some? {
      OtherEvent(d, Event(org, l.value, FromAccount, AccountEventConfirmed, None));
    }
  }

  lemma NewEntryInv(en: A.Engine, db: Db, org: string, e: A.Entry, report: Report, rid: nat, hint: Hint)
    requires LifeInv(db) && FindEntry(db, org, e.identityHash, hint).None?
    ensures var db' := OneEntry(en, db, org, e, report, rid, hint).db;
      LifeInv(db') && Extends(db, db') && |db'.lifecycles| == |db.lifecycles|
  {
    var found := FindLifecycleForEntry(db, org, e, hint);
    if found.None? {
      AddEntry(db, EntryRow(org, rid, e.identityHash, None, A.UnmatchedAccountEntry, NoLifecycle),
               db.reconciliations + [ReconciliationRow(org, |db.entries|, None, A.UnmatchedAccountEntry, 0)]);
    } else {
      var l := found.value;
      var r := A.Reconcile(en, e, report.account, ContextOf(db.lifecycles[l]));
      var recons := db.reconciliations + [ReconciliationRow(org, |db.entries|, Some(l), r.classification, r.score)];
      var row := EntryRow(org, rid, e.identityHash, Some(l), r.classification, ByEngine(r));
      AddEntry(db, row, recons);
      var d := db.(entries := db.entries + [row], reconciliations := recons);
      var event := Event(org, l, FromAccount, if e.creditDebit == Some(A.Debit) then DebitRecorded else CreditRecorded, None);
      OtherEvent(d, event);
      OpenCaseInv(WithEvent(d, event), org, AccountCase(PrefixOf(e.identityHash)));
    }
  }

  lemma OneEntryInv(en: A.Engine, db: Db, org: string, e: A.Entry, report: Report, rid: nat, hint: Hint)
    requires LifeInv(db)
    ensures var db' := OneEntry(en, db, org, e, report, rid, hint).db;
      LifeInv(db') && Extends(db, db') && |db'.lifecycles| == |db.lifecycles|
  {
    var existing := FindEntry(db, org, e.identityHash, hint);
    if existing.Some? {
      KnownEntryInv(db, org, e, report, rid, existing.value);
    } else {
      NewEntryInv(en, db, org, e, report, rid, hint);
    }
  }

  lemma {:induction false} AfterEntriesInv(en: A.Engine, db: Db, org: string, entries: seq<A.Entry>, report: Report, rid: nat, hint: Hint)
    requires LifeInv(db)
    ensures var db' := AfterEntries(en, db, org, entries, report, rid, hint).db;
      LifeInv(db') && Extends(db, db') && |db'.lifecycles| == |db.lifecycles|
  {
    if entries != [] {
      var front := entries[..|entries| - 1];
      AfterEntriesInv(en, db, org, front, report, rid, hint);
      var d := AfterEntries(en, db, org, front, report, rid, hint).db;
      OneEntryInv(en, d, org, entries[|entries| - 1], report, rid, hint);
      ExtendsTwice(db, d, AfterEntries(en, db, org, entries, report, rid, hint).db);
    }
  }

  lemma OneReportInv(en: A.Engine, db: Db, org: string, report: Report, hint: Hint)
    requires LifeInv(db)
    ensures var db' := OneReport(en, db, org, report, hint).db;
      LifeInv(db') && Extends(db, db') && |db'.lifecycles| == |db.lifecycles|
  {
    var d := db.(reports := db.reports + [ReportRow(org, report.reportType)]);
    SameLifeInv(db, d);
    AfterEntriesInv(en, d, org, report.entries, report, |db.reports|, hint);
  }

  lemma {:induction false} AfterReportsInv(en: A.Engine, db: Db, org: string, reports: seq<Report>, hint: Hint)
    requires LifeInv(db)
    ensures var db' := AfterReports(en, db, org, reports, hint).db;
      LifeInv(db') && Extends(db, db') && |db'.lifecycles| == |db.lifecycles|
  {
    if reports != [] {
      var front := reports[..|reports| - 1];
      AfterReportsInv(en, db, org, front, hint);
      var d := AfterReports(en, db, org, front, hint).db;
      OneReportInv(en, d, org, reports[|reports| - 1], hint);
      ExtendsTwice(db, d, AfterReports(en, db, org, reports, hint).db);
    }
  }

  /** Ingesting keeps the invariant and every identifier; only payment messages add lifecycles. */
  lemma IngestInv(en: A.Engine, db: Db, org: string, now: int, msg: Message, hint: Hint)
    requires LifeInv(db)
    ensures var db' := Ingest(en, db, org, now, msg, hint); LifeInv(db') && Extends(db, db')
    ensures !msg.Payment? ==> |Ingest(en, db, org, now, msg, hint).lifecycles| == |db.lifecycles|
  {
    var a := AnalysisOf(msg);
    PipelineResult(msg);
    var d := db.(messages := db.messages + [MessageRow(org, a.hash)]);
    SameLifeInv(db, d);
    if a.reports != [] {
      AfterReportsInv(en, d, org, a.reports, hint);
    } else {
      AfterCorrelationInv(d, org, now, a, hint);
    }
  }

  lemma ApplyInv(en: A.Engine, db: Db, step: Step)
    requires LifeInv(db)
    ensures LifeInv(Apply(en, db, step)) && Extends(db, Apply(en, db, step))
  {
    match step
    case IngestMessage(org, now, msg, hint) => IngestInv(en, db, org, now, msg, hint);
    case DetectMissing(org, cutoff) =>
      OnlyCases(db, org, cutoff, |db.lifecycles|);
      SameLifeInv(db, AfterMissing(db, org, cutoff, |db.lifecycles|));
  }

  /** Over every run the invariant holds, and identifiers never change after creation. */
  lemma {:induction false} RunInv(en: A.Engine, db: Db, steps: seq<Step>)
    requires LifeInv(db)
    ensures LifeInv(Run(en, db, steps)) && Extends(db, Run(en, db, steps))
  {
    if steps != [] {
      var front := steps[..|steps| - 1];
      RunInv(en, db, front);
      ApplyInv(en, Run(en, db, front), steps[|steps| - 1]);
      ExtendsTwice(db, Run(en, db, front), Run(en, db, steps));
    }
  }

  /** In every reachable state a lifecycle's status is that of its latest pacs.002 event. */
  lemma StatusIsLatest(en: A.Engine, steps: seq<Step>, i: nat)
    requires i < |Run(en, EMPTY_DB, steps).lifecycles|
    ensures var db := Run(en, EMPTY_DB, steps); db.lifecycles[i].currentStatus == LatestStatus(db.events, i)
  {
    RunInv(en, EMPTY_DB, steps);
    assert StatusAt(Run(en, EMPTY_DB, steps), i);
  }

  lemma OneStatusWrites(db: Db, org: string, a: Analysis, p: Profile, hint: Hint, i: nat)
    requires i < |db.lifecycles| && a.normalizedStatus.Some?
    ensures var db' := OneStatus(db, org, a, p, hint);
      && |db'.lifecycles| == |db.lifecycles|
      && db'.lifecycles[i].currentStatus ==
           if FindLifecycle(db, org, p, hint) == Some(i) then a.normalizedStatus.value else db.lifecycles[i].currentStatus
  {
  }

  /** Some profile finds lifecycle `i` once the profiles before it have been applied. */
  predicate Touched(db: Db, org: string, a: Analysis, profiles: seq<Profile>, hint: Hint, i: nat) {
    profiles != [] && (
      var front, last := profiles[..|profiles| - 1], profiles[|profiles| - 1];
      || Touched(db, org, a, front, hint, i)
      || FindLifecycle(AfterStatuses(db, org, a, front, hint), org, ServiceProfile(last), hint) == Some(i))
  }

  /** What a status report writes: the status of its first transaction, or of the group when it lists
      none, to exactly the lifecycles its profiles find. */
  lemma {:induction false} ReportWritesFirstStatus(db: Db, org: string, msg: Message, profiles: seq<Profile>, hint: Hint, i: nat)
    requires msg.StatusReport? && i < |db.lifecycles|
    ensures var a := AnalysisOf(msg); var db' := AfterStatuses(db, org, a, profiles, hint);
      && |db'.lifecycles| == |db.lifecycles|
      && db'.lifecycles[i].currentStatus ==
           if !Touched(db, org, a, profiles, hint, i) then db.lifecycles[i].currentStatus
           else if msg.statuses != [] then msg.statuses[0].status else msg.groupStatus
  {
    if profiles != [] {
      var front := profiles[..|profiles| - 1];
      ReportWritesFirstStatus(db, org, msg, front, hint, i);
      OneStatusWrites(AfterStatuses(db, org, AnalysisOf(msg), front, hint), org, AnalysisOf(msg),
                      ServiceProfile(profiles[|profiles| - 1]), hint, i);
    }
  }

  /** The lifecycle that the `k`-th status of a report finds, at its turn. */
  function FoundBy(db: Db, org: string, a: Analysis, hint: Hint, k: nat): Option<nat>
    requires k < |a.profiles|
  {
    FindLifecycle(AfterStatuses(db, org, a, a.profiles[..k], hint), org, ServiceProfile(a.profiles[k]), hint)
  }

  lemma {:induction false} TouchedFrom(db: Db, org: string, a: Analysis, n: nat, hint: Hint, k: nat)
    requires k < n <= |a.profiles| && FoundBy(db, org, a, hint, k).Some?
    ensures Touched(db, org, a, a.profiles[..n], hint, FoundBy(db, org, a, hint, k).value)
    decreases n
  {
    assert a.profiles[..n][..n - 1] == a.profiles[..n - 1];
    if k < n - 1 {
      TouchedFrom(db, org, a, n - 1, hint, k);
    }
  }

  lemma {:induction false} StatusesKeepCount(db: Db, org: string, a: Analysis, profiles: seq<Profile>, hint: Hint)
    ensures |AfterStatuses(db, org, a, profiles, hint).lifecycles| == |db.lifecycles|
  {
    if profiles != [] {
      StatusesKeepCount(db, org, a, profiles[..|profiles| - 1], hint);
    }
  }

  lemma {:induction false} ProfilePerStatus(txs: seq<StatusTx>, messageId: Option<string>, originalMessageId: Option<string>)
    ensures |ProfilesOfStatuses(txs, messageId, originalMessageId)| == |txs|
  {
    if txs != [] {
      ProfilePerStatus(txs[..|txs| - 1], messageId, originalMessageId);
    }
  }

  /** The lifecycle found by the `k`-th status ends with that status exactly when it is also the first
      status of the report. */
  lemma OwnStatusIff(db: Db, org: string, msg: Message, hint: Hint, k: nat)
    requires msg.StatusReport? && k < |msg.statuses|
    ensures var a := AnalysisOf(msg);
      && k < |a.profiles| && |AfterStatuses(db, org, a, a.profiles, hint).lifecycles| == |db.lifecycles|
      && (FoundBy(db, org, a, hint, k).Some? ==>
            && FoundBy(db, org, a, hint, k).value < |db.lifecycles|
            && (AfterStatuses(db, org, a, a.profiles, hint).lifecycles[FoundBy(db, org, a, hint, k).value].currentStatus
                  == msg.statuses[k].status
                <==> msg.statuses[k].status == msg.statuses[0].status))
  {
    var a := AnalysisOf(msg);
    ProfilePerStatus(msg.statuses, msg.messageId, msg.originalMessageId);
    StatusesKeepCount(db, org, a, a.profiles, hint);
    StatusesKeepCount(db, org, a, a.profiles[..k], hint);
    if FoundBy(db, org, a, hint, k).Some? {
      TouchedFrom(db, org, a, |a.profiles|, hint, k);
      assert a.profiles[..|a.profiles|] == a.profiles;
      ReportWritesFirstStatus(db, org, msg, a.profiles, hint, FoundBy(db, org, a, hint, k).value);
    }
  }

  // ----- what a found lifecycle shares with its profile -----

  /** Whichever matching row the query yields, in every state a service passes through, also between the
      profiles of one message: the found lifecycle shares a transaction, end-to-end or instruction id
      with the profile; correlation with it is never unresolved; and it is CORRELATED exactly when the
      transaction ids agree and nothing conflicts. */
  lemma FoundIsRelated(norm: string -> string, db: Db, org: string, p: Profile, hint: Hint)
    requires LifeInv(db) && FindLifecycle(db, org, p, hint).Some?
    ensures var l := LifecycleProfile(db.lifecycles[FindLifecycle(db, org, p, hint).value]);
      && (Agree(p.transactionId, l.transactionId) || Agree(p.endToEndId, l.endToEndId) || Agree(p.instructionId, l.instructionId))
      && Correlate(norm, p, l).status != Unresolved
      && (Correlate(norm, p, l).status == Correlated <==> Agree(p.transactionId, l.transactionId) && !AnyConflict(p, l))
  {
    var i := FindLifecycle(db, org, p, hint).value;
    assert Bare(db.lifecycles[i]);
    assert ProfileQuery(org, p)(db.lifecycles[i]);
    StatusMeans(norm, p, LifecycleProfile(db.lifecycles[i]));
  }

  /** The invariant holds wherever a message searches: after any number of its profiles, from any
      reachable state. */
  lemma SearchedStates(en: A.Engine, steps: seq<Step>, org: string, now: int, msg: Message, hint: Hint, k: nat)
    requires k <= |AnalysisOf(msg).profiles|
    ensures var a := AnalysisOf(msg);
      var s := Run(en, EMPTY_DB, steps);
      var d := s.(messages := s.messages + [MessageRow(org, a.hash)]);
      && (msg.StatusReport? ==> LifeInv(AfterStatuses(d, org, a, a.profiles[..k], hint)))
      && (msg.Payment? ==> LifeInv(AfterPayments(d, org, now, a, a.profiles[..k], hint).0))
  {
    var a := AnalysisOf(msg);
    var s := Run(en, EMPTY_DB, steps);
    var d := s.(messages := s.messages + [MessageRow(org, a.hash)]);
    RunInv(en, EMPTY_DB, steps);
    SameLifeInv(s, d);
    PipelineResult(msg);
    if msg.StatusReport? {
      AfterStatusesInv(d, org, a, a.profiles[..k], hint);
    } else if msg.Payment? {
      AfterPaymentsInv(d, org, now, a, a.profiles[..k], hint);
    }
  }

  // ----- replaying a payment message -----

  predicate HasId(p: Profile) { Given(p.transactionId) || Given(p.endToEndId) || Given(p.instructionId) }

  /** Some lifecycle of the organization matches the profile. */
  ghost predicate Covered(db: Db, org: string, p: Profile) {
    exists k :: 0 <= k < |db.lifecycles| && HoldsProfile(db.lifecycles[k], org, p)
  }

  lemma CoveredLater(db: Db, db': Db, org: string, p: Profile)
    requires Extends(db, db') && Covered(db, org, p)
    ensures Covered(db', org, p)
  {
    var k :| 0 <= k < |db.lifecycles| && HoldsProfile(db.lifecycles[k], org, p);
    assert SameIdentifiers(db.lifecycles[k], db'.lifecycles[k]);
    assert HoldsProfile(db'.lifecycles[k], org, p);
  }

  lemma CoveredAfter(db: Db, org: string, now: int, a: Analysis, p: Profile, hint: Hint)
    requires HasId(p)
    ensures Covered(OnePayment(db, org, now, a, p, hint).0, org, p)
  {
    var found := FindLifecycle(db, org, p, hint);
    var db' := OnePayment(db, org, now, a, p, hint).0;
    if found.Some? {
      assert ProfileQuery(org, p)(db.lifecycles[found.value]);
      assert HoldsProfile(db'.lifecycles[found.value], org, p);
    } else {
      assert HoldsProfile(db'.lifecycles[|db.lifecycles|], org, p);
    }
  }

  lemma {:induction false} AllCovered(db: Db, org: string, now: int, a: Analysis, profiles: seq<Profile>, hint: Hint, i: nat)
    requires LifeInv(db) && NoOriginals(profiles) && i < |profiles| && HasId(profiles[i])
    ensures Covered(AfterPayments(db, org, now, a, profiles, hint).0, org, ServiceProfile(profiles[i]))
  {
    var front, last := profiles[..|profiles| - 1], profiles[|profiles| - 1];
    AfterPaymentsInv(db, org, now, a, front, hint);
    var d := AfterPayments(db, org, now, a, front, hint).0;
    if i == |profiles| - 1 {
      CoveredAfter(d, org, now, a, ServiceProfile(last), hint);
    } else {
      AllCovered(db, org, now, a, front, hint, i);
      OnePaymentInv(d, org, now, a, ServiceProfile(last), hint);
      CoveredLater(d, OnePayment(d, org, now, a, ServiceProfile(last), hint).0, org, ServiceProfile(profiles[i]));
    }
  }

  function Anonymous(profiles: seq<Profile>): nat {
    if profiles == [] then 0
    else Anonymous(profiles[..|profiles| - 1]) + if HasId(profiles[|profiles| - 1]) then 0 else 1
  }

  ghost predicate Known(db: Db, org: string, profiles: seq<Profile>) {
    forall i :: 0 <= i < |profiles| && HasId(profiles[i]) ==> Covered(db, org, ServiceProfile(profiles[i]))
  }

  lemma ReplayOne(db: Db, org: string, now: int, a: Analysis, p: Profile, hint: Hint)
    requires LifeInv(db) && p.originalMessageId.None? && (HasId(p) ==> Covered(db, org, p))
    ensures |OnePayment(db, org, now, a, p, hint).0.lifecycles| == |db.lifecycles| + if HasId(p) then 0 else 1
  {
    var found := FindLifecycle(db, org, p, hint);
    if HasId(p) && found.None? {
      var k :| 0 <= k < |db.lifecycles| && HoldsProfile(db.lifecycles[k], org, p);
      PickNone(db.lifecycles, ProfileQuery(org, p), hint(db), k);
    }
    if found.Some? {
      assert ProfileQuery(org, p)(db.lifecycles[found.value]);
    }
  }

  lemma {:induction false} ReplayAll(db: Db, org: string, now: int, a: Analysis, profiles: seq<Profile>, hint: Hint)
    requires LifeInv(db) && NoOriginals(profiles) && Known(db, org, profiles)
    ensures |AfterPayments(db, org, now, a, profiles, hint).0.lifecycles| == |db.lifecycles| + Anonymous(profiles)
  {
    if profiles != [] {
      var front, last := profiles[..|profiles| - 1], profiles[|profiles| - 1];
      ReplayAll(db, org, now, a, front, hint);
      AfterPaymentsInv(db, org, now, a, front, hint);
      var d := AfterPayments(db, org, now, a, front, hint).0;
      if HasId(last) {
        CoveredLater(db, d, org, ServiceProfile(last));
      }
      ReplayOne(d, org, now, a, ServiceProfile(last), hint);
    }
  }

  lemma {:induction false} PaymentsAddEvents(db: Db, org: string, now: int, a: Analysis, profiles: seq<Profile>, hint: Hint)
    ensures |AfterPayments(db, org, now, a, profiles, hint).0.events| == |db.events| + |profiles|
  {
    if profiles != [] {
      PaymentsAddEvents(db, org, now, a, profiles[..|profiles| - 1], hint);
    }
  }

  /** Ingesting a payment message again, at any later time and under another hash, adds exactly one
      lifecycle for each transaction without any identifier, none for the others, and one event for
      every transaction. */
  lemma ReplayAddsAnonymousOnly(en: A.Engine, before: seq<Step>, org: string, now: int, first: Message, hint: Hint,
                                between: seq<Step>, now': int, again: Message, hint': Hint)
    requires first.Payment? && again == Payment(first.kind, again.hash, first.messageId, first.transactions)
    requires var s := Run(en, EMPTY_DB, before); MessageRow(org, first.hash) !in s.messages
    requires var s1 := Run(en, Ingest(en, Run(en, EMPTY_DB, before), org, now, first, hint), between);
      MessageRow(org, again.hash) !in s1.messages
    ensures var s1 := Run(en, Ingest(en, Run(en, EMPTY_DB, before), org, now, first, hint), between);
      && |Ingest(en, s1, org, now', again, hint').lifecycles| == |s1.lifecycles| + Anonymous(AnalysisOf(first).profiles)
      && |Ingest(en, s1, org, now', again, hint').events| == |s1.events| + |first.transactions|
  {
    var s := Run(en, EMPTY_DB, before);
    RunInv(en, EMPTY_DB, before);
    IngestInv(en, s, org, now, first, hint);
    var r := Ingest(en, s, org, now, first, hint);
    RunInv(en, r, between);
    var s1 := Run(en, r, between);
    PipelineResult(first);
    var profiles := AnalysisOf(first).profiles;
    IngestedKnown(en, s, org, now, first, hint);
    forall i | 0 <= i < |profiles| && HasId(profiles[i]) ensures Covered(s1, org, ServiceProfile(profiles[i])) {
      CoveredLater(r, s1, org, ServiceProfile(profiles[i]));
    }
    ReplayFrom(en, s1, org, now', again, hint');
  }

  predicate TxHasId(tx: PaymentTx) { Given(tx.transactionId) || Given(tx.endToEndId) || Given(tx.instructionId) }

  predicate AllHaveIds(txs: seq<PaymentTx>) {
    txs == [] || (AllHaveIds(txs[..|txs| - 1]) && TxHasId(txs[|txs| - 1]))
  }

  /** A payment whose transactions all carry an identifier has no anonymous profile, so replaying it
      adds no lifecycle. */
  lemma {:induction false} NoAnonymous(txs: seq<PaymentTx>, messageId: Option<string>)
    ensures Anonymous(ProfilesOfTxs(txs, messageId)) == 0 <==> AllHaveIds(txs)
  {
    if txs != [] {
      var ps := ProfilesOfTxs(txs, messageId);
      NoAnonymous(txs[..|txs| - 1], messageId);
      assert ps[..|ps| - 1] == ProfilesOfTxs(txs[..|txs| - 1], messageId);
    }
  }

  lemma IngestedKnown(en: A.Engine, s: Db, org: string, now: int, msg: Message, hint: Hint)
    requires LifeInv(s) && msg.Payment? && MessageRow(org, msg.hash) !in s.messages
    ensures Known(Ingest(en, s, org, now, msg, hint), org, AnalysisOf(msg).profiles)
  {
    PipelineResult(msg);
    var a := AnalysisOf(msg);
    var d := s.(messages := s.messages + [MessageRow(org, a.hash)]);
    SameLifeInv(s, d);
    forall i | 0 <= i < |a.profiles| && HasId(a.profiles[i])
      ensures Covered(Ingest(en, s, org, now, msg, hint), org, ServiceProfile(a.profiles[i]))
    {
      AllCovered(d, org, now, a, a.profiles, hint, i);
    }
  }

  lemma ReplayFrom(en: A.Engine, s: Db, org: string, now: int, msg: Message, hint: Hint)
    requires LifeInv(s) && msg.Payment? && MessageRow(org, msg.hash) !in s.messages
    requires Known(s, org, AnalysisOf(msg).profiles)
    ensures |Ingest(en, s, org, now, msg, hint).lifecycles| == |s.lifecycles| + Anonymous(AnalysisOf(msg).profiles)
    ensures |Ingest(en, s, org, now, msg, hint).events| == |s.events| + |msg.transactions|
  {
    PipelineResult(msg);
    var a := AnalysisOf(msg);
    var d := s.(messages := s.messages + [MessageRow(org, a.hash)]);
    SameLifeInv(s, d);
    forall i | 0 <= i < |a.profiles| && HasId(a.profiles[i]) ensures Covered(d, org, ServiceProfile(a.profiles[i])) {
      CoveredLater(s, d, org, ServiceProfile(a.profiles[i]));
    }
    ReplayAll(d, org, now, a, a.profiles, hint);
    PaymentsAddEvents(d, org, now, a, a.profiles, hint);
  }

  lemma {:induction false} MessagesStay(en: A.Engine, db: Db, steps: seq<Step>, m: MessageRow)
    requires m in db.messages
    ensures m in Run(en, db, steps).messages
  {
    if steps != [] {
      MessagesStay(en, db, steps[..|steps| - 1], m);
      StepKeepsMessages(en, Run(en, db, steps[..|steps| - 1]), steps[|steps| - 1], m);
    }
  }

  lemma StepKeepsMessages(en: A.Engine, db: Db, step: Step, m: MessageRow)
    requires m in db.messages
    ensures m in Apply(en, db, step).messages
  {
    match step
    case IngestMessage(org, now, msg, hint) => IngestMessages(en, db, org, now, msg, hint);
    case DetectMissing(org, cutoff) => OnlyCases(db, org, cutoff, |db.lifecycles|);
  }

  lemma IngestMessages(en: A.Engine, db: Db, org: string, now: int, msg: Message, hint: Hint)
    ensures var row := MessageRow(org, msg.hash);
      Ingest(en, db, org, now, msg, hint).messages == if row in db.messages then db.messages else db.messages + [row]
  {
    var a := AnalysisOf(msg);
    var d := db.(messages := db.messages + [MessageRow(org, a.hash)]);
    ReportsKeepMessages(en, d, org, a.reports, hint);
    StatusesKeepMessages(d, org, a, a.profiles, hint);
    PaymentsKeepMessages(d, org, now, a, a.profiles, hint);
  }

  lemma {:induction false} EntriesKeepMessages(en: A.Engine, db: Db, org: string, entries: seq<A.Entry>, report: Report, rid: nat, hint: Hint)
    ensures AfterEntries(en, db, org, entries, report, rid, hint).db.messages == db.messages
  {
    if entries != [] {
      EntriesKeepMessages(en, db, org, entries[..|entries| - 1], report, rid, hint);
    }
  }

  lemma {:induction false} ReportsKeepMessages(en: A.Engine, db: Db, org: string, reports: seq<Report>, hint: Hint)
    ensures AfterReports(en, db, org, reports, hint).db.messages == db.messages
  {
    if reports != [] {
      var front, last := reports[..|reports| - 1], reports[|reports| - 1];
      ReportsKeepMessages(en, db, org, front, hint);
      var d := AfterReports(en, db, org, front, hint).db;
      EntriesKeepMessages(en, d.(reports := d.reports + [ReportRow(org, last.reportType)]), org, last.entries, last,
                          |d.reports|, hint);
    }
  }

  lemma {:induction false} StatusesKeepMessages(db: Db, org: string, a: Analysis, profiles: seq<Profile>, hint: Hint)
    ensures AfterStatuses(db, org, a, profiles, hint).messages == db.messages
  {
    if profiles != [] {
      StatusesKeepMessages(db, org, a, profiles[..|profiles| - 1], hint);
    }
  }

  lemma {:induction false} PaymentsKeepMessages(db: Db, org: string, now: int, a: Analysis, profiles: seq<Profile>, hint: Hint)
    ensures AfterPayments(db, org, now, a, profiles, hint).0.messages == db.messages
  {
    if profiles != [] {
      PaymentsKeepMessages(db, org, now, a, profiles[..|profiles| - 1], hint);
    }
  }

  /** Ingesting a message under a hash that was ingested before changes nothing at all. */
  lemma SameHashChangesNothing(en: A.Engine, db: Db, org: string, now: int, first: Message, hint: Hint, between: seq<Step>,
                               now': int, again: Message, hint': Hint)
    requires again.hash == first.hash
    ensures var s := Run(en, Ingest(en, db, org, now, first, hint), between); Ingest(en, s, org, now', again, hint') == s
  {
    IngestMessages(en, db, org, now, first, hint);
    MessagesStay(en, Ingest(en, db, org, now, first, hint), between, MessageRow(org, first.hash));
  }
}
