// The ingestion services: they update the stored rows step by step, as Ingestion describes, and keep
// the invariants of LifecycleLaws and AccountLaws.
module IsoService {
  import opened Strings
  import opened Correlation
  import opened Ingestion
  import LifecycleLaws
  import AccountLaws
  import MessageLaws
  import A = AccountReconciliation

  /** The correlation a status profile ends with; an unknown parent leaves it unresolved. */
  function StatusResult(norm: string -> string, db: Db, org: string, p: Profile, hint: Hint): Correlation.Status {
    match FindLifecycle(db, org, p, hint)
    case None => Unresolved
    case Some(i) => Correlate(norm, p, LifecycleProfile(db.lifecycles[i])).status
  }

  /** How an operation ended, and the state it left. */
  function Ended(ok: bool, db: Db): Progress { if ok then Going(db) else Raised(db) }

  /** What `_reconcile_and_persist` leaves. */
  function Persisted(en: A.Engine, db: Db, org: string, e: A.Entry, report: Report, rid: nat, lifecycle: Option<nat>): Progress
    requires lifecycle.Some? ==> lifecycle.value < |db.lifecycles|
  {
    match lifecycle
    case None => Going(UnmatchedEntry(db, org, e, rid))
    case Some(l) => ReconciledEntry(db, org, e, rid, l, A.Reconcile(en, e, report.account, ContextOf(db.lifecycles[l])))
  }

  /** Row `r` is RECONCILED exactly on a strong identifier, the amount and the currency, with nothing that disagrees. */
  ghost predicate RightlyReconciled(en: A.Engine, e: A.Entry, report: Report, l: Lifecycle, r: EntryRow) {
    var c, account := ContextOf(l), A.EntryAccount(report.account);
    r.classification == A.Reconciled <==>
      !A.Disagree(en, e, account, c) && A.StrongId(en, e, c) && A.SameAmount(e, c) && A.SameCurrency(en, e, c)
  }

  class Service {
    const en: A.Engine
    const norm: string -> string
    var db: Db

    ghost predicate Valid()
      reads this
    {
      AccountLaws.Inv(db)
    }

    constructor (engine: A.Engine, reference: string -> string)
      ensures en == engine && norm == reference && db == EMPTY_DB && Valid()
    {
      en, norm, db := engine, reference, EMPTY_DB;
      new;
      AccountLaws.RunKeeps(en, []);
    }

    /** `_add_event` */
    method AddEvent(e: Event)
      modifies this
      ensures db == WithEvent(old(db), e)
    {
      db := db.(events := db.events + [e]);
    }

    method SetStatus(i: nat, status: Option<PaymentStatus>)
      requires i < |db.lifecycles|
      modifies this
      ensures db == WithStatus(old(db), i, status)
    {
      if status.Some? {
        db := db.(lifecycles := db.lifecycles[i := db.lifecycles[i].(currentStatus := status.value)]);
      }
    }

    // ----- lifecycles -----

    /** The pacs.002 branch: correlate each status with an existing lifecycle, never creating one. */
    method CorrelateStatuses(org: string, a: Analysis, hint: Hint) returns (status: Option<Correlation.Status>)
      modifies this
      ensures old(Valid()) && a.normalizedStatus.Some? ==> Valid()
      ensures LifecycleLaws.Extends(old(db), db) && |db.lifecycles| == |old(db).lifecycles|
      ensures db == AfterStatuses(old(db), org, a, a.profiles, hint)
      ensures a.profiles == [] ==> status == None
      ensures a.profiles != [] ==>
        var n := |a.profiles| - 1;
        status == Some(StatusResult(norm, AfterStatuses(old(db), org, a, a.profiles[..n], hint), org,
                                    ServiceProfile(a.profiles[n]), hint))
    {
      LifecycleLaws.StatusesExtend(db, org, a, a.profiles, hint);
      if Valid() && a.normalizedStatus.Some? {
        AccountLaws.StatusesKeep(db, org, a, a.profiles, hint);
      }
      status := None;
      var profiles := a.profiles;
      for i := 0 to |profiles|
        invariant db == AfterStatuses(old(db), org, a, profiles[..i], hint)
        invariant i == 0 ==> status == None
        invariant i > 0 ==>
          status == Some(StatusResult(norm, AfterStatuses(old(db), org, a, profiles[..i - 1], hint), org,
                                      ServiceProfile(profiles[i - 1]), hint))
      {
        assert profiles[..i + 1][..i] == profiles[..i];
        var outcome := CorrelateStatus(org, a, ServiceProfile(profiles[i]), hint);
        status := Some(outcome);
      }
      assert profiles[..|profiles|] == profiles;
    }

    method CorrelateStatus(org: string, a: Analysis, profile: Profile, hint: Hint) returns (status: Correlation.Status)
      modifies this
      ensures db == OneStatus(old(db), org, a, profile, hint)
      ensures status == StatusResult(norm, old(db), org, profile, hint)
    {
      var found := FindLifecycle(db, org, profile, hint);
      if found.None? {
        return Unresolved;
      }
      var i := found.value;
      var correlation := CorrelateProfiles(norm, profile, LifecycleProfile(db.lifecycles[i]));
      status := correlation.status;
      AddEvent(Event(org, i, FromStatus, EventTypeFor(a.version, a.normalizedStatus), EventStatus(a)));
      SetStatus(i, a.normalizedStatus);
    }

    /** The payment branch: find or create a lifecycle for each profile. */
    method BuildLifecycles(org: string, now: int, a: Analysis, hint: Hint) returns (last: Option<nat>)
      modifies this
      ensures (db, last) == AfterPayments(old(db), org, now, a, a.profiles, hint)
    {
      last := None;
      var profiles := a.profiles;
      for i := 0 to |profiles|
        invariant (db, last) == AfterPayments(old(db), org, now, a, profiles[..i], hint)
      {
        assert profiles[..i + 1][..i] == profiles[..i];
        var id := BuildLifecycle(org, now, a, ServiceProfile(profiles[i]), hint);
        last := Some(id);
      }
      assert profiles[..|profiles|] == profiles;
    }

    method BuildLifecycle(org: string, now: int, a: Analysis, profile: Profile, hint: Hint) returns (id: nat)
      modifies this
      ensures (db, id) == OnePayment(old(db), org, now, a, profile, hint)
    {
      var found := FindLifecycle(db, org, profile, hint);
      if found.None? {
        id := |db.lifecycles|;
        db := db.(lifecycles := db.lifecycles + [NewLifecycle(org, now, profile)]);
      } else {
        id := found.value;
      }
      AddEvent(Event(org, id, FromPayment, EventTypeFor(a.version, a.normalizedStatus), EventStatus(a)));
    }

    /** `_correlate_and_build_lifecycle` */
    method CorrelateAndBuildLifecycle(org: string, now: int, a: Analysis, hint: Hint)
      modifies this
      ensures old(Valid()) && LifecycleLaws.FromPipeline(a) ==> Valid()
      ensures LifecycleLaws.Extends(old(db), db)
      ensures a.version.Pacs002? ==> |db.lifecycles| == |old(db).lifecycles|
      ensures db == AfterCorrelation(old(db), org, now, a, hint)
    {
      LifecycleLaws.CorrelationExtends(db, org, now, a, hint);
      if Valid() && LifecycleLaws.FromPipeline(a) {
        AccountLaws.CorrelationKeeps(db, org, now, a, hint);
      }
      if a.version.Pacs002? {
        var _ := CorrelateStatuses(org, a, hint);
        return;
      }
      var last := BuildLifecycles(org, now, a, hint);
      if last.Some? && last.value < |db.lifecycles| {
        SetStatus(last.value, a.normalizedStatus);
      }
    }

    // ----- account entries -----

    /** `_ensure_case`: the organization gets the case unless another one holds its id; then the insert is
        refused. The invariant is kept, and restored where the case of the last entry was due. */
    method EnsureCase(org: string, id: CaseId) returns (ok: bool)
      modifies this
      ensures Ended(ok, db) == OpenCase(old(db), org, id)
      ensures ok <==> CaseRow(org, id) in db.cases
      ensures AccountLaws.OneCase(old(db)) ==> AccountLaws.OneCase(db) && (ok <==> !HeldByOther(old(db), org, id))
      ensures forall c :: c in db.cases <==> c in old(db).cases || (ok && c == CaseRow(org, id))
      ensures Held(old(db), id) ==> db == old(db)
      ensures old(Valid() && (Held(db, id) || AccountLaws.RightOwner(db, CaseRow(org, id)))) ==> Valid()
      ensures old(LifecycleLaws.LifeInv(db) && AccountLaws.AccountInv(db) && AccountLaws.Due(db, org, id)) ==> Valid()
    {
      CaseOutcome(db, org, id);
      if CaseRow(org, id) in db.cases {
        return true;
      }
      if Held(db, id) {
        return false;
      }
      db := db.(cases := db.cases + [CaseRow(org, id)]);
      return true;
    }

    static lemma CaseOutcome(db: Db, org: string, id: CaseId)
      ensures var p := OpenCase(db, org, id);
        && (p.Going? <==> CaseRow(org, id) in p.db.cases)
        && (AccountLaws.OneCase(db) ==> AccountLaws.OneCase(p.db) && (p.Going? <==> !HeldByOther(db, org, id)))
        && (LifecycleLaws.LifeInv(db) && AccountLaws.AccountInv(db)
            && (AccountLaws.Due(db, org, id)
                || (AccountLaws.CaseInv(db) && (Held(db, id) || AccountLaws.RightOwner(db, CaseRow(org, id)))))
            ==> AccountLaws.Inv(p.db))
    {
      var p := OpenCase(db, org, id);
      if AccountLaws.OneCase(db) {
        AccountLaws.RefusedIff(db, org, id);
      }
      if p.db != db {
        assert p.db.cases[|db.cases|] == CaseRow(org, id);
      }
      if LifecycleLaws.LifeInv(db) && AccountLaws.AccountInv(db)
          && (AccountLaws.Due(db, org, id)
              || (AccountLaws.CaseInv(db) && (Held(db, id) || AccountLaws.RightOwner(db, CaseRow(org, id))))) {
        AccountLaws.CaseKeeps(db, org, id);
      }
    }

    /** The branch of `_ingest_entry` for an identity that is already known. */
    method IngestKnownEntry(org: string, e: A.Entry, report: Report, rid: nat, x: nat) returns (ok: bool)
      requires x < |db.entries|
      modifies this
      ensures Ended(ok, db) == KnownEntry(old(db), org, e, report, rid, x)
    {
      var lifecycle := db.entries[x].lifecycle;
      if Repeats(db, x, report, rid) {
        db := db.(entries := db.entries + [EntryRow(org, rid, e.identityHash, lifecycle, A.DuplicateAccountEntry, DuplicateIdentity)]);
        ok := EnsureCase(org, AccountCase(PrefixOf(e.identityHash)));
      } else {
        db := db.(entries := db.entries + [EntryRow(org, rid, e.identityHash, lifecycle, A.Reconciled, Confirmed)]);
        if lifecycle.Some? {
          AddEvent(Event(org, lifecycle.value, FromAccount, AccountEventConfirmed, None));
        }
        ok := true;
      }
    }

    /** `_reconcile_and_persist`: one entry row and one reconciliation row that agree; RECONCILED exactly
        on a strong identifier, the amount and the currency, with nothing that disagrees. */
    method ReconcileAndPersist(org: string, e: A.Entry, report: Report, rid: nat, lifecycle: Option<nat>) returns (ok: bool)
      requires Valid() && (lifecycle.Some? ==> lifecycle.value < |db.lifecycles|)
      modifies this
      ensures AccountLaws.AddsEntry(old(db), Ended(ok, db), org, e, rid) && AccountLaws.IsReconciled(old(db), db)
      ensures var r := db.entries[|old(db).entries|];
        && r.lifecycle == lifecycle
        && (lifecycle.None? ==> ok && r.classification == A.UnmatchedAccountEntry)
        && (lifecycle.Some? ==> RightlyReconciled(en, e, report, old(db).lifecycles[lifecycle.value], r))
      ensures Ended(ok, db) == Persisted(en, old(db), org, e, report, rid, lifecycle)
    {
      var id := |db.entries|;
      PersistedRows(en, db, org, e, report, rid, lifecycle);
      if lifecycle.None? {
        db := db.(entries := db.entries + [EntryRow(org, rid, e.identityHash, None, A.UnmatchedAccountEntry, NoLifecycle)]);
        db := db.(reconciliations := db.reconciliations + [ReconciliationRow(org, id, None, A.UnmatchedAccountEntry, 0)]);
        return true;
      }
      var l := lifecycle.value;
      var r := A.ReconcileAccountEntry(en, e, report.account, ContextOf(db.lifecycles[l]));
      db := db.(entries := db.entries + [EntryRow(org, rid, e.identityHash, Some(l), r.classification, ByEngine(r))]);
      db := db.(reconciliations := db.reconciliations + [ReconciliationRow(org, id, Some(l), r.classification, r.score)]);
      AddEvent(Event(org, l, FromAccount, if e.creditDebit == Some(A.Debit) then DebitRecorded else CreditRecorded, None));
      ok := true;
      if IsException(r.classification) {
        ok := EnsureCase(org, AccountCase(PrefixOf(e.identityHash)));
      }
    }

    static lemma PersistedRows(en: A.Engine, db: Db, org: string, e: A.Entry, report: Report, rid: nat, lifecycle: Option<nat>)
      requires AccountLaws.Inv(db) && (lifecycle.Some? ==> lifecycle.value < |db.lifecycles|)
      ensures var p := Persisted(en, db, org, e, report, rid, lifecycle);
        && AccountLaws.AddsEntry(db, p, org, e, rid) && AccountLaws.IsReconciled(db, p.db)
        && var r := p.db.entries[|db.entries|];
        && r.lifecycle == lifecycle
        && (lifecycle.None? ==> p.Going? && r.classification == A.UnmatchedAccountEntry)
        && (lifecycle.Some? ==> RightlyReconciled(en, e, report, db.lifecycles[lifecycle.value], r))
    {
      if lifecycle.None? {
        AccountLaws.UnmatchedAdds(db, org, e, rid);
      } else {
        AccountLaws.EngineAdds(en, db, org, e, report, rid, lifecycle.value);
        A.ReconciledMeans(en, e, report.account, ContextOf(db.lifecycles[lifecycle.value]));
      }
    }

    /** `_ingest_entry`: an entry of a new identity is reconciled, any other joins the earlier ones. */
    method IngestEntry(org: string, e: A.Entry, report: Report, rid: nat, hint: Hint) returns (ok: bool)
      requires Valid() && rid < |db.reports| && db.reports[rid].reportType == report.reportType
      modifies this
      ensures Valid() && AccountLaws.AddsEntry(old(db), Ended(ok, db), org, e, rid)
      ensures if AccountLaws.NewIdentity(old(db), org, e.identityHash)
        then AccountLaws.IsReconciled(old(db), db) && MessageLaws.EntryOutcome(en, old(db), db, org, e)
        else AccountLaws.JoinsEarlier(old(db), db)
             && exists x: nat :: MessageLaws.FollowsEntry(old(db), db, org, e, report, rid, x)
      ensures Ended(ok, db) == OneEntry(en, old(db), org, e, report, rid, hint)
    {
      if AccountLaws.NewIdentity(db, org, e.identityHash) {
        MessageLaws.EntryStep(en, db, org, e, report, rid, hint);
      } else {
        MessageLaws.KnownStep(en, db, org, e, report, rid, hint);
      }
      AccountLaws.OneEntryAdds(en, db, org, e, report, rid, hint);
      AccountLaws.OneEntryKeeps(en, db, org, e, report, rid, hint);
      var existing := FindEntry(db, org, e.identityHash, hint);
      if existing.Some? {
        ok := IngestKnownEntry(org, e, report, rid, existing.value);
        return;
      }
      var lifecycle := FindLifecycleForEntry(db, org, e, hint);
      ok := ReconcileAndPersist(org, e, report, rid, lifecycle);
    }

    /** `ingest_account_report`: an error ends it, and what was stored before stays. */
    method IngestAccountReport(org: string, reports: seq<Report>, hint: Hint) returns (ok: bool)
      requires Valid()
      modifies this
      ensures Valid() && Ended(ok, db) == AfterReports(en, old(db), org, reports, hint)
    {
      for i := 0 to |reports|
        invariant Valid() && Going(db) == AfterReports(en, old(db), org, reports[..i], hint)
      {
        NextReport(en, old(db), org, reports, i, hint);
        ok := IngestOneReport(org, reports[i], hint);
        if !ok {
          ReportsStop(en, old(db), org, reports, i + 1, hint);
          return;
        }
      }
      assert reports[..|reports|] == reports;
      return true;
    }

    static lemma NextReport(en: A.Engine, start: Db, org: string, reports: seq<Report>, i: nat, hint: Hint)
      requires i < |reports| && AfterReports(en, start, org, reports[..i], hint).Going?
      ensures AfterReports(en, start, org, reports[..i + 1], hint)
        == OneReport(en, AfterReports(en, start, org, reports[..i], hint).db, org, reports[i], hint)
    {
      assert reports[..i + 1][..i] == reports[..i];
    }

    /** Once a report was refused, the ones after it change nothing. */
    static lemma {:induction false} ReportsStop(en: A.Engine, start: Db, org: string, reports: seq<Report>, i: nat, hint: Hint)
      requires i <= |reports| && AfterReports(en, start, org, reports[..i], hint).Raised?
      ensures AfterReports(en, start, org, reports, hint) == AfterReports(en, start, org, reports[..i], hint)
    {
      if i < |reports| {
        var front := reports[..|reports| - 1];
        assert front[..i] == reports[..i];
        ReportsStop(en, start, org, front, i, hint);
      } else {
        assert reports[..i] == reports;
      }
    }

    static lemma NextEntry(en: A.Engine, start: Db, org: string, report: Report, k: nat, rid: nat, hint: Hint)
      requires k < |report.entries| && AfterEntries(en, start, org, report.entries[..k], report, rid, hint).Going?
      ensures var p := AfterEntries(en, start, org, report.entries[..k], report, rid, hint);
        AfterEntries(en, start, org, report.entries[..k + 1], report, rid, hint)
        == OneEntry(en, p.db, org, report.entries[k], report, rid, hint)
    {
      assert report.entries[..k + 1][..k] == report.entries[..k];
    }

    static lemma {:induction false} EntriesStop(en: A.Engine, start: Db, org: string, entries: seq<A.Entry>, k: nat,
                                                report: Report, rid: nat, hint: Hint)
      requires k <= |entries| && AfterEntries(en, start, org, entries[..k], report, rid, hint).Raised?
      ensures AfterEntries(en, start, org, entries, report, rid, hint)
        == AfterEntries(en, start, org, entries[..k], report, rid, hint)
    {
      if k < |entries| {
        var front := entries[..|entries| - 1];
        assert front[..k] == entries[..k];
        EntriesStop(en, start, org, front, k, report, rid, hint);
      } else {
        assert entries[..k] == entries;
      }
    }

    method IngestOneReport(org: string, report: Report, hint: Hint) returns (ok: bool)
      requires Valid()
      modifies this
      ensures Valid() && Ended(ok, db) == OneReport(en, old(db), org, report, hint)
    {
      var rid := |db.reports|;
      AccountLaws.ReportKeeps(db, ReportRow(org, report.reportType));
      db := db.(reports := db.reports + [ReportRow(org, report.reportType)]);
      ghost var start := db;
      for k := 0 to |report.entries|
        invariant Valid() && db.reports == start.reports
        invariant Going(db) == AfterEntries(en, start, org, report.entries[..k], report, rid, hint)
      {
        NextEntry(en, start, org, report, k, rid, hint);
        ok := IngestEntry(org, report.entries[k], report, rid, hint);
        if !ok {
          EntriesStop(en, start, org, report.entries, k + 1, report, rid, hint);
          return;
        }
      }
      assert report.entries[..|report.entries|] == report.entries;
      return true;
    }

    // ----- operations -----

    /** `analyze_iso_message` */
    method AnalyzeIsoMessage(org: string, now: int, msg: Message, hint: Hint) returns (ok: bool)
      requires Valid()
      modifies this
      ensures Valid() && LifecycleLaws.Extends(old(db), db)
      ensures !msg.Payment? ==> |db.lifecycles| == |old(db).lifecycles|
      ensures MessageRow(org, msg.hash) in old(db).messages ==> ok && db == old(db)
      ensures !msg.AccountMessage? ==> ok
      ensures MessageRow(org, msg.hash) !in old(db).messages ==> MessageLaws.MeansMessage(old(db), db, org, now, msg)
      ensures Ended(ok, db) == Ingested(en, old(db), org, now, msg, hint)
    {
      AccountLaws.IngestKeeps(en, db, org, now, msg, hint);
      LifecycleLaws.IngestInv(en, db, org, now, msg, hint);
      if MessageRow(org, msg.hash) !in db.messages {
        MessageLaws.MessageMeans(en, db, org, now, msg, hint);
      }
      var a := AnalysisOf(msg);
      if MessageRow(org, a.hash) in db.messages {
        return true;
      }
      AccountLaws.MessageKeeps(db, MessageRow(org, a.hash));
      db := db.(messages := db.messages + [MessageRow(org, a.hash)]);
      if a.reports != [] {
        ok := IngestAccountReport(org, a.reports, hint);
      } else {
        CorrelateAndBuildLifecycle(org, now, a, hint);
        ok := true;
      }
    }

    /** `detect_missing_account_events` */
    method DetectMissingAccountEvents(org: string, cutoff: int) returns (flagged: seq<nat>)
      requires Valid()
      modifies this
      ensures Valid() && LifecycleLaws.Extends(old(db), db) && db.lifecycles == old(db).lifecycles
      ensures forall l :: l in flagged <==> MissingEvent(old(db), org, cutoff, l)
      ensures forall l :: l in flagged ==> CaseRow(org, MissingCase(l)) in db.cases
      ensures db == AfterMissing(old(db), org, cutoff, |old(db).lifecycles|)
      ensures flagged == Flagged(old(db), org, cutoff, |old(db).lifecycles|)
    {
      flagged := [];
      ghost var before := db;
      AccountLaws.DetectionKeeps(en, db, org, cutoff);
      for i := 0 to |db.lifecycles|
        invariant db == AfterMissing(before, org, cutoff, i) && flagged == Flagged(before, org, cutoff, i)
      {
        OnlyCases(before, org, cutoff, i);
        AccountLaws.MissingEventSame(before, db, org, cutoff, i);
        if MissingEvent(db, org, cutoff, i) {
          AccountLaws.DetectionIsNeverRefused(before, org, cutoff, i);
          var ok := EnsureCase(org, MissingCase(i));
          assert ok;
          flagged := flagged + [i];
        }
      }
    }
  }
}
