// What holds of account entries, their reconciliations and the exception cases in every reachable
// state of the ingestion services.
module AccountLaws {
  import opened Strings
  import opened Correlation
  import opened Ingestion
  import opened LifecycleLaws
  import A = AccountReconciliation

  // ----- the invariant -----

  /** Two entries of one organization with the same identity. */
  predicate SameIdentity(r: EntryRow, s: EntryRow) { r.org == s.org && r.identity == s.identity }

  ghost predicate Placed(db: Db) {
    forall i :: 0 <= i < |db.entries| ==> db.entries[i].report < |db.reports|
  }

  ghost predicate OneLifecycle(db: Db) {
    forall i, j :: 0 <= i < |db.entries| && 0 <= j < |db.entries| && SameIdentity(db.entries[i], db.entries[j])
      ==> db.entries[i].lifecycle == db.entries[j].lifecycle
  }

  /** A reconciliation row is about an entry of its own organization, with a score of at most 55.81. */
  predicate ReconOk(db: Db, r: ReconciliationRow) {
    r.entry < |db.entries| && r.org == db.entries[r.entry].org && 0 <= r.score <= 5581
  }

  ghost predicate ReconsOk(db: Db) {
    forall a :: 0 <= a < |db.reconciliations| ==> ReconOk(db, db.reconciliations[a])
  }

  /** The reconciliation row is about the identity of entry `i`. */
  predicate About(db: Db, a: nat, i: nat)
    requires a < |db.reconciliations| && i < |db.entries|
  {
    db.reconciliations[a].entry < |db.entries| && SameIdentity(db.entries[db.reconciliations[a].entry], db.entries[i])
  }

  ghost predicate SomeRecon(db: Db, i: nat)
    requires i < |db.entries|
  {
    exists a :: 0 <= a < |db.reconciliations| && About(db, a, i)
  }

  ghost predicate AllReconciled(db: Db) { forall i :: 0 <= i < |db.entries| ==> SomeRecon(db, i) }

  ghost predicate OneRecon(db: Db) {
    forall i, a, b ::
      (0 <= i < |db.entries| && 0 <= a < |db.reconciliations| && 0 <= b < |db.reconciliations|
        && About(db, a, i) && About(db, b, i)) ==> a == b
  }

  /** The engine's own grounds for RECONCILED: no conflict, a strong identifier, amount and currency. */
  predicate EngineGrounds(o: A.Outcome) {
    && o.conflicts == [] && A.Has(o.evidence, A.AmountAgrees) && A.Has(o.evidence, A.CurrencyAgrees)
    && (A.Has(o.evidence, A.UetrExact) || A.Has(o.evidence, A.TxIdExact)
        || A.Has(o.evidence, A.E2EExact) || A.Has(o.evidence, A.InstrExact))
  }

  /** Entry `i` confirms the earlier entry `j` of the same identity from another report type. */
  predicate ConfirmsEarlier(db: Db, i: nat, j: nat)
    requires i < |db.entries|
  {
    && j < i && SameIdentity(db.entries[i], db.entries[j])
    && db.entries[i].report < |db.reports| && db.entries[j].report < |db.reports|
    && db.reports[db.entries[j].report].reportType != db.reports[db.entries[i].report].reportType
  }

  ghost predicate Grounded(db: Db, i: nat)
    requires i < |db.entries|
  {
    db.entries[i].classification == A.Reconciled ==>
      || (db.entries[i].grounds.ByEngine? && EngineGrounds(db.entries[i].grounds.outcome))
      || (db.entries[i].grounds == Confirmed && exists j :: ConfirmsEarlier(db, i, j))
  }

  ghost predicate AllGrounded(db: Db) { forall i :: 0 <= i < |db.entries| ==> Grounded(db, i) }

  ghost predicate AccountInv(db: Db) {
    Placed(db) && OneLifecycle(db) && ReconsOk(db) && AllReconciled(db) && OneRecon(db) && AllGrounded(db)
  }

  // ----- steps that add no entry -----

  predicate SameAccounts(db: Db, db': Db) {
    db'.reports == db.reports && db'.entries == db.entries && db'.reconciliations == db.reconciliations
  }

  lemma SameAccountsInv(db: Db, db': Db)
    requires AccountInv(db) && SameAccounts(db, db')
    ensures AccountInv(db')
  {
    forall i | 0 <= i < |db'.entries| ensures SomeRecon(db', i) && Grounded(db', i) {
      SameRecon(db, db', i);
      SameGrounds(db, db', i);
    }
    forall i, a, b | 0 <= i < |db'.entries| && 0 <= a < |db'.reconciliations| && 0 <= b < |db'.reconciliations|
        && About(db', a, i) && About(db', b, i)
      ensures a == b
    {
      assert About(db, a, i) && About(db, b, i);
    }
  }

  lemma SameRecon(db: Db, db': Db, i: nat)
    requires db'.reconciliations == db.reconciliations && db.entries <= db'.entries
    requires i < |db.entries| && SomeRecon(db, i)
    ensures SomeRecon(db', i)
  {
    var a :| 0 <= a < |db.reconciliations| && About(db, a, i);
    assert About(db', a, i);
  }

  lemma SameGrounds(db: Db, db': Db, i: nat)
    requires db.reports <= db'.reports && db.entries <= db'.entries && i < |db.entries| && Grounded(db, i)
    ensures Grounded(db', i)
  {
    if db.entries[i].classification == A.Reconciled && !db.entries[i].grounds.ByEngine? {
      var j :| ConfirmsEarlier(db, i, j);
      assert ConfirmsEarlier(db', i, j);
    }
  }

  lemma AddReport(db: Db, r: ReportRow)
    requires AccountInv(db)
    ensures AccountInv(db.(reports := db.reports + [r]))
  {
    var db' := db.(reports := db.reports + [r]);
    forall i | 0 <= i < |db'.entries| ensures SomeRecon(db', i) && Grounded(db', i) {
      SameRecon(db, db', i);
      SameGrounds(db, db', i);
    }
    forall i, a, b | 0 <= i < |db'.entries| && 0 <= a < |db'.reconciliations| && 0 <= b < |db'.reconciliations|
        && About(db', a, i) && About(db', b, i)
      ensures a == b
    {
      assert About(db, a, i) && About(db, b, i);
    }
  }

  // ----- an entry of a known identity -----

  lemma RepeatedEntry(db: Db, r: EntryRow, x: nat)
    requires AccountInv(db) && x < |db.entries| && SameIdentity(r, db.entries[x]) && r.lifecycle == db.entries[x].lifecycle
    requires r.report < |db.reports|
    requires r.classification == A.Reconciled ==>
      r.grounds == Confirmed && db.reports[db.entries[x].report].reportType != db.reports[r.report].reportType
    ensures AccountInv(db.(entries := db.entries + [r]))
  {
    var db', n := db.(entries := db.entries + [r]), |db.entries|;
    forall i | 0 <= i < |db'.entries| ensures SomeRecon(db', i) && Grounded(db', i) {
      if i < n {
        SameRecon(db, db', i);
        SameGrounds(db, db', i);
      } else {
        SameRecon(db, db', x);
        var a :| 0 <= a < |db'.reconciliations| && About(db', a, x);
        assert About(db', a, n);
        if r.classification == A.Reconciled {
          assert ConfirmsEarlier(db', n, x);
        }
      }
    }
    forall i, a, b | 0 <= i < |db'.entries| && 0 <= a < |db'.reconciliations| && 0 <= b < |db'.reconciliations|
        && About(db', a, i) && About(db', b, i)
      ensures a == b
    {
      assert ReconOk(db, db.reconciliations[a]) && ReconOk(db, db.reconciliations[b]);
      var k := if i < n then i else x;
      assert About(db, a, k) && About(db, b, k);
    }
    forall i, j | 0 <= i < |db'.entries| && 0 <= j < |db'.entries| && SameIdentity(db'.entries[i], db'.entries[j])
      ensures db'.entries[i].lifecycle == db'.entries[j].lifecycle
    {
      var k, l := if i < n then i else x, if j < n then j else x;
      assert SameIdentity(db.entries[k], db.entries[l]);
    }
    forall a | 0 <= a < |db'.reconciliations| ensures ReconOk(db', db'.reconciliations[a]) {
      assert ReconOk(db, db.reconciliations[a]);
    }
  }

  // ----- an entry of a new identity -----

  lemma FirstEntry(db: Db, r: EntryRow, c: ReconciliationRow)
    requires AccountInv(db) && r.report < |db.reports|
    requires forall i :: 0 <= i < |db.entries| ==> !SameIdentity(r, db.entries[i])
    requires c.org == r.org && c.entry == |db.entries| && 0 <= c.score <= 5581
    requires r.classification == A.Reconciled ==> r.grounds.ByEngine? && EngineGrounds(r.grounds.outcome)
    ensures AccountInv(db.(entries := db.entries + [r], reconciliations := db.reconciliations + [c]))
  {
    var db' := db.(entries := db.entries + [r], reconciliations := db.reconciliations + [c]);
    var n, m := |db.entries|, |db.reconciliations|;
    forall i | 0 <= i < |db'.entries| ensures SomeRecon(db', i) && Grounded(db', i) {
      if i < n {
        assert SomeRecon(db, i);
        var a :| 0 <= a < m && About(db, a, i);
        assert About(db', a, i);
        SameGrounds(db, db', i);
      } else {
        assert About(db', m, n);
      }
    }
    forall i, a, b | 0 <= i < |db'.entries| && 0 <= a < |db'.reconciliations| && 0 <= b < |db'.reconciliations|
        && About(db', a, i) && About(db', b, i)
      ensures a == b
    {
      FirstRecon(db, r, c, i, a);
      FirstRecon(db, r, c, i, b);
    }
    forall a | 0 <= a < |db'.reconciliations| ensures ReconOk(db', db'.reconciliations[a]) {
      if a < m {
        assert ReconOk(db, db.reconciliations[a]);
      }
    }
  }

  lemma FirstRecon(db: Db, r: EntryRow, c: ReconciliationRow, i: nat, a: nat)
    requires ReconsOk(db) && c.entry == |db.entries|
    requires forall i :: 0 <= i < |db.entries| ==> !SameIdentity(r, db.entries[i])
    requires i <= |db.entries| && a <= |db.reconciliations|
    requires About(db.(entries := db.entries + [r], reconciliations := db.reconciliations + [c]), a, i)
    ensures a < |db.reconciliations| <==> i < |db.entries|
    ensures i < |db.entries| ==> About(db, a, i)
  {
    if a < |db.reconciliations| {
      assert ReconOk(db, db.reconciliations[a]);
    }
  }

  // ----- the operations -----

  lemma KnownAccountEntry(db: Db, org: string, e: A.Entry, report: Report, rid: nat, x: nat)
    requires AccountInv(db) && x < |db.entries| && db.entries[x].org == org && db.entries[x].identity == e.identityHash
    requires rid < |db.reports| && db.reports[rid].reportType == report.reportType
    ensures AccountInv(KnownEntry(db, org, e, report, rid, x).db)
  {
    var l := db.entries[x].lifecycle;
    var r := if Repeats(db, x, report, rid)
             then EntryRow(org, rid, e.identityHash, l, A.DuplicateAccountEntry, DuplicateIdentity)
             else EntryRow(org, rid, e.identityHash, l, A.Reconciled, Confirmed);
    RepeatedEntry(db, r, x);
    SameAccountsInv(db.(entries := db.entries + [r]), KnownEntry(db, org, e, report, rid, x).db);
  }

  lemma EngineOutcome(en: A.Engine, e: A.Entry, account: Option<A.AccountRef>, l: Lifecycle)
    requires Bare(l)
    ensures var r := A.Reconcile(en, e, account, ContextOf(l));
      0 <= r.score <= 5581 && (r.classification == A.Reconciled ==> EngineGrounds(r))
  {
    A.BareContextScore(en, e, account, ContextOf(l));
    var r := A.Reconcile(en, e, account, ContextOf(l));
    A.ConflictsClassify(r.evidence, r.conflicts);
  }

  lemma FreshIdentity(db: Db, org: string, identity: string, hint: Hint, r: EntryRow)
    requires FindEntry(db, org, identity, hint).None? && r.org == org && r.identity == identity
    ensures forall i :: 0 <= i < |db.entries| ==> !SameIdentity(r, db.entries[i])
  {
    forall i: nat | i < |db.entries| ensures !SameIdentity(r, db.entries[i]) {
      PickNone(db.entries, IdentityQuery(org, identity), hint(db), i);
    }
  }

  lemma NewAccountEntry(en: A.Engine, db: Db, org: string, e: A.Entry, report: Report, rid: nat, hint: Hint)
    requires AccountInv(db) && AllBare(db) && rid < |db.reports| && FindEntry(db, org, e.identityHash, hint).None?
    ensures AccountInv(OneEntry(en, db, org, e, report, rid, hint).db)
  {
    var found := FindLifecycleForEntry(db, org, e, hint);
    if found.None? {
      var r := EntryRow(org, rid, e.identityHash, None, A.UnmatchedAccountEntry, NoLifecycle);
      FreshIdentity(db, org, e.identityHash, hint, r);
      FirstEntry(db, r, ReconciliationRow(org, |db.entries|, None, A.UnmatchedAccountEntry, 0));
    } else {
      var l := found.value;
      var o := A.Reconcile(en, e, report.account, ContextOf(db.lifecycles[l]));
      EngineOutcome(en, e, report.account, db.lifecycles[l]);
      MatchedEntry(db, org, e, rid, l, o, hint);
    }
  }

  lemma MatchedEntry(db: Db, org: string, e: A.Entry, rid: nat, l: nat, o: A.Outcome, hint: Hint)
    requires AccountInv(db) && rid < |db.reports| && FindEntry(db, org, e.identityHash, hint).None?
    requires 0 <= o.score <= 5581 && (o.classification == A.Reconciled ==> EngineGrounds(o))
    ensures AccountInv(ReconciledEntry(db, org, e, rid, l, o).db)
  {
    var r := EntryRow(org, rid, e.identityHash, Some(l), o.classification, ByEngine(o));
    var c := ReconciliationRow(org, |db.entries|, Some(l), o.classification, o.score);
    FreshIdentity(db, org, e.identityHash, hint, r);
    FirstEntry(db, r, c);
    SameAccountsInv(db.(entries := db.entries + [r], reconciliations := db.reconciliations + [c]),
                    ReconciledEntry(db, org, e, rid, l, o).db);
  }

  // ----- who holds the cases -----

  function CaseIdOf(r: EntryRow): CaseId { AccountCase(PrefixOf(r.identity)) }

  /** The case an exceptional entry opens or joins. */
  function CaseOf(r: EntryRow): CaseRow { CaseRow(r.org, CaseIdOf(r)) }

  /** The entry is an exception with this prefix, of whichever organization. */
  predicate Excepts(r: EntryRow, prefix: string) { IsException(r.classification) && PrefixOf(r.identity) == prefix }

  /** Entry `j` is the first exception with its prefix, over all organizations. */
  ghost predicate Opens(db: Db, j: nat, prefix: string) {
    && j < |db.entries| && Excepts(db.entries[j], prefix)
    && forall k :: 0 <= k < j ==> !Excepts(db.entries[k], prefix)
  }

  /** No id is held twice. */
  ghost predicate OneCase(db: Db) {
    forall i, j :: 0 <= i < j < |db.cases| ==> db.cases[i].caseId != db.cases[j].caseId
  }

  /** The row belongs to the organization of the first exception with its prefix, or of the lifecycle. */
  ghost predicate RightOwner(db: Db, c: CaseRow) {
    match c.caseId
    case AccountCase(prefix) => exists j: nat :: Opens(db, j, prefix) && db.entries[j].org == c.org
    case MissingCase(l) => l < |db.lifecycles| && db.lifecycles[l].org == c.org
  }

  ghost predicate AllOwned(db: Db) { forall i :: 0 <= i < |db.cases| ==> RightOwner(db, db.cases[i]) }

  predicate Cased(db: Db, r: EntryRow) { IsException(r.classification) ==> Held(db, CaseIdOf(r)) }

  /** The ids of the first `n` entries' exceptions are held. */
  ghost predicate CasedUpTo(db: Db, n: nat)
    requires n <= |db.entries|
  {
    forall i :: 0 <= i < n ==> Cased(db, db.entries[i])
  }

  ghost predicate CaseInv(db: Db) { OneCase(db) && AllOwned(db) && CasedUpTo(db, |db.entries|) }

  ghost predicate Inv(db: Db) { LifeInv(db) && AccountInv(db) && CaseInv(db) }

  /** Only the case of the last entry may still be missing: the state in which `_ensure_case` is called. */
  ghost predicate Due(db: Db, org: string, id: CaseId) {
    && db.entries != [] && OneCase(db) && AllOwned(db) && CasedUpTo(db, |db.entries| - 1)
    && var r := db.entries[|db.entries| - 1]; IsException(r.classification) && CaseOf(r) == CaseRow(org, id)
  }

  /** Rows are only added. */
  predicate Grows(db: Db, db': Db) { db.entries <= db'.entries && db.cases <= db'.cases }

  lemma OpensLater(db: Db, db': Db, j: nat, prefix: string)
    requires db.entries <= db'.entries && Opens(db, j, prefix)
    ensures Opens(db', j, prefix)
  {
  }

  lemma OwnerLater(db: Db, db': Db, c: CaseRow)
    requires db.entries <= db'.entries && Extends(db, db') && RightOwner(db, c)
    ensures RightOwner(db', c)
  {
    if c.caseId.AccountCase? {
      var j: nat :| Opens(db, j, c.caseId.identityPrefix) && db.entries[j].org == c.org;
      OpensLater(db, db', j, c.caseId.identityPrefix);
    } else {
      assert SameIdentifiers(db.lifecycles[c.caseId.lifecycle], db'.lifecycles[c.caseId.lifecycle]);
    }
  }

  lemma CasedLater(db: Db, db': Db, n: nat)
    requires Grows(db, db') && n <= |db.entries| && CasedUpTo(db, n)
    ensures CasedUpTo(db', n)
  {
    forall i | 0 <= i < n ensures Cased(db', db'.entries[i]) {
      assert Cased(db, db.entries[i]);
      if IsException(db.entries[i].classification) {
        var k :| 0 <= k < |db.cases| && db.cases[k].caseId == CaseIdOf(db.entries[i]);
        assert db'.cases[k].caseId == CaseIdOf(db'.entries[i]);
      }
    }
  }

  /** Nothing is added to entries and cases. */
  lemma SameCases(db: Db, db': Db)
    requires CaseInv(db) && db'.entries == db.entries && db'.cases == db.cases && Extends(db, db')
    ensures CaseInv(db')
  {
    forall i | 0 <= i < |db'.cases| ensures RightOwner(db', db'.cases[i]) {
      OwnerLater(db, db', db.cases[i]);
    }
    CasedLater(db, db', |db.entries|);
  }

  /** An entry is stored: the invariant holds unless it is an exception, whose case is then due. */
  lemma StoredCases(db: Db, db': Db, r: EntryRow)
    requires CaseInv(db) && db'.entries == db.entries + [r] && db'.cases == db.cases && Extends(db, db')
    ensures if IsException(r.classification) then Due(db', r.org, CaseIdOf(r)) else CaseInv(db')
  {
    forall i | 0 <= i < |db'.cases| ensures RightOwner(db', db'.cases[i]) {
      OwnerLater(db, db', db.cases[i]);
    }
    CasedLater(db, db', |db.entries|);
  }

  /** Opening the case that is due restores the invariant, also when it is refused. */
  lemma DueOpened(db: Db, org: string, id: CaseId)
    requires Due(db, org, id)
    ensures CaseInv(OpenCase(db, org, id).db)
  {
    var db', n := OpenCase(db, org, id).db, |db.entries| - 1;
    CasedLater(db, db', n);
    if Held(db, id) {
      assert db' == db;
    } else {
      NewHolder(db, org, id);
      forall i | 0 <= i < |db'.cases| ensures RightOwner(db', db'.cases[i]) {
        if i < |db.cases| {
          OwnerSame(db, db', db.cases[i]);
        } else {
          OpensLater(db, db', n, id.identityPrefix);
        }
      }
      assert db'.cases[|db.cases|].caseId == id;
    }
  }

  lemma OwnerSame(db: Db, db': Db, c: CaseRow)
    requires db'.entries == db.entries && db'.lifecycles == db.lifecycles && RightOwner(db, c)
    ensures RightOwner(db', c)
  {
    if c.caseId.AccountCase? {
      var j: nat :| Opens(db, j, c.caseId.identityPrefix) && db.entries[j].org == c.org;
      OpensLater(db, db', j, c.caseId.identityPrefix);
    }
  }

  /** Where the id is not held yet, the last entry is the first exception with its prefix. */
  lemma NewHolder(db: Db, org: string, id: CaseId)
    requires Due(db, org, id) && !Held(db, id)
    ensures Opens(db, |db.entries| - 1, id.identityPrefix)
  {
    forall k | 0 <= k < |db.entries| - 1 ensures !Excepts(db.entries[k], id.identityPrefix) {
      assert Cased(db, db.entries[k]);
    }
  }

  /** A missing event's case, opened for the lifecycle's own organization, is never refused. */
  lemma MissingOpened(db: Db, org: string, l: nat)
    requires CaseInv(db) && l < |db.lifecycles| && db.lifecycles[l].org == org
    ensures var p := OpenCase(db, org, MissingCase(l));
      p.Going? && CaseInv(p.db) && db.cases <= p.db.cases && CaseRow(org, MissingCase(l)) in p.db.cases
  {
    var id, p := MissingCase(l), OpenCase(db, org, MissingCase(l));
    if Held(db, id) {
      var k :| 0 <= k < |db.cases| && db.cases[k].caseId == id;
      assert RightOwner(db, db.cases[k]);
      assert db.cases[k] == CaseRow(org, id);
    } else {
      forall i | 0 <= i < |p.db.cases| ensures RightOwner(p.db, p.db.cases[i]) {
        if i < |db.cases| {
          OwnerSame(db, p.db, db.cases[i]);
        }
      }
      CasedLater(db, p.db, |db.entries|);
      assert p.db.cases[|db.cases|] == CaseRow(org, id);
    }
  }

  /** `_ensure_case` keeps the invariant, and restores it where the case of the last entry is due. */
  lemma CaseKeeps(db: Db, org: string, id: CaseId)
    requires LifeInv(db) && AccountInv(db)
    requires Due(db, org, id) || (CaseInv(db) && (Held(db, id) || RightOwner(db, CaseRow(org, id))))
    ensures Inv(OpenCase(db, org, id).db)
  {
    var db' := OpenCase(db, org, id).db;
    OpenCaseInv(db, org, id);
    SameAccountsInv(db, db');
    if Due(db, org, id) {
      DueOpened(db, org, id);
    } else if id.MissingCase? && !Held(db, id) {
      MissingOpened(db, org, id.lifecycle);
    } else if !Held(db, id) {
      OwnedExceptionIsHeld(db, org, id);
    }
  }

  /** Where the invariant holds, the id of an exception is held already. */
  lemma OwnedExceptionIsHeld(db: Db, org: string, id: CaseId)
    requires CaseInv(db) && id.AccountCase? && RightOwner(db, CaseRow(org, id))
    ensures Held(db, id)
  {
    var j: nat :| Opens(db, j, id.identityPrefix) && db.entries[j].org == org;
    assert Cased(db, db.entries[j]);
  }

  lemma OneEntryCases(en: A.Engine, db: Db, org: string, e: A.Entry, report: Report, rid: nat, hint: Hint)
    requires LifeInv(db) && CaseInv(db)
    ensures CaseInv(OneEntry(en, db, org, e, report, rid, hint).db)
  {
    var existing, found := FindEntry(db, org, e.identityHash, hint), FindLifecycleForEntry(db, org, e, hint);
    if existing.Some? {
      KnownCases(db, org, e, report, rid, existing.value);
    } else if found.Some? {
      var o := A.Reconcile(en, e, report.account, ContextOf(db.lifecycles[found.value]));
      ClassifiedCases(db, org, e, rid, found.value, o);
    } else {
      StoredCases(db, UnmatchedEntry(db, org, e, rid), EntryRow(org, rid, e.identityHash, None, A.UnmatchedAccountEntry, NoLifecycle));
    }
  }

  lemma KnownCases(db: Db, org: string, e: A.Entry, report: Report, rid: nat, x: nat)
    requires CaseInv(db) && x < |db.entries|
    ensures CaseInv(KnownEntry(db, org, e, report, rid, x).db)
  {
    var l := db.entries[x].lifecycle;
    if Repeats(db, x, report, rid) {
      var r := EntryRow(org, rid, e.identityHash, l, A.DuplicateAccountEntry, DuplicateIdentity);
      StoredCases(db, db.(entries := db.entries + [r]), r);
      DueOpened(db.(entries := db.entries + [r]), org, CaseIdOf(r));
    } else {
      StoredCases(db, KnownEntry(db, org, e, report, rid, x).db, EntryRow(org, rid, e.identityHash, l, A.Reconciled, Confirmed));
    }
  }

  lemma ClassifiedCases(db: Db, org: string, e: A.Entry, rid: nat, l: nat, o: A.Outcome)
    requires CaseInv(db)
    ensures CaseInv(ReconciledEntry(db, org, e, rid, l, o).db)
  {
    var r := EntryRow(org, rid, e.identityHash, Some(l), o.classification, ByEngine(o));
    var d := ClassifiedEntry(db, org, e, rid, l, o);
    StoredCases(db, d, r);
    if IsException(o.classification) {
      DueOpened(d, org, CaseIdOf(r));
    }
  }

  lemma OneEntryAccounts(en: A.Engine, db: Db, org: string, e: A.Entry, report: Report, rid: nat, hint: Hint)
    requires AccountInv(db) && AllBare(db) && rid < |db.reports| && db.reports[rid].reportType == report.reportType
    ensures AccountInv(OneEntry(en, db, org, e, report, rid, hint).db)
  {
    var existing := FindEntry(db, org, e.identityHash, hint);
    if existing.Some? {
      assert IdentityQuery(org, e.identityHash)(db.entries[existing.value]);
      KnownAccountEntry(db, org, e, report, rid, existing.value);
    } else {
      NewAccountEntry(en, db, org, e, report, rid, hint);
    }
  }

  lemma SameReports(en: A.Engine, db: Db, org: string, e: A.Entry, report: Report, rid: nat, hint: Hint)
    ensures OneEntry(en, db, org, e, report, rid, hint).db.reports == db.reports
  {
  }

  lemma OneEntryKeeps(en: A.Engine, db: Db, org: string, e: A.Entry, report: Report, rid: nat, hint: Hint)
    requires Inv(db) && rid < |db.reports| && db.reports[rid].reportType == report.reportType
    ensures var db' := OneEntry(en, db, org, e, report, rid, hint).db; Inv(db') && db'.reports == db.reports
  {
    OneEntryInv(en, db, org, e, report, rid, hint);
    OneEntryCases(en, db, org, e, report, rid, hint);
    OneEntryAccounts(en, db, org, e, report, rid, hint);
    SameReports(en, db, org, e, report, rid, hint);
  }

  lemma ReportKeeps(db: Db, r: ReportRow)
    requires Inv(db)
    ensures Inv(db.(reports := db.reports + [r]))
  {
    var db' := db.(reports := db.reports + [r]);
    AddReport(db, r);
    SameLifeInv(db, db');
    SameCases(db, db');
  }

  lemma MessageKeeps(db: Db, m: MessageRow)
    requires Inv(db)
    ensures Inv(db.(messages := db.messages + [m]))
  {
    var db' := db.(messages := db.messages + [m]);
    SameLifeInv(db, db');
    SameAccountsInv(db, db');
    SameCases(db, db');
  }

  // ----- what one entry adds -----

  /** No earlier entry of the organization has this identity. */
  ghost predicate NewIdentity(db: Db, org: string, identity: string) {
    forall i :: 0 <= i < |db.entries| ==> !(db.entries[i].org == org && db.entries[i].identity == identity)
  }

  /** One row is added for the entry. It records its report and identity; an event is added when it has
      a lifecycle and does not repeat another entry; the case of an exception is opened unless the id is
      held, and the operation ends in an error exactly when another organization held it before. */
  ghost predicate AddsEntry(db: Db, p: Progress, org: string, e: A.Entry, rid: nat) {
    && |p.db.entries| == |db.entries| + 1 && db.entries <= p.db.entries
    && p.db.messages == db.messages && p.db.lifecycles == db.lifecycles && p.db.reports == db.reports
    && var r := p.db.entries[|db.entries|];
    && r.org == org && r.identity == e.identityHash && r.report == rid
    && db.events <= p.db.events
    && |p.db.events| == |db.events| + (if r.lifecycle.Some? && r.classification != A.DuplicateAccountEntry then 1 else 0)
    && p.db.cases == db.cases + (if IsException(r.classification) && !Held(db, CaseIdOf(r)) then [CaseOf(r)] else [])
    && (p.Raised? <==> IsException(r.classification) && HeldByOther(db, org, CaseIdOf(r)))
  }

  /** An entry of a known identity joins the lifecycle of the earlier ones and is not reconciled again. */
  ghost predicate JoinsEarlier(db: Db, db': Db)
    requires |db'.entries| > |db.entries|
  {
    var r := db'.entries[|db.entries|];
    && db'.reconciliations == db.reconciliations
    && (r.classification == A.Reconciled || r.classification == A.DuplicateAccountEntry)
    && forall i :: 0 <= i < |db.entries| && SameIdentity(r, db.entries[i]) ==> r.lifecycle == db.entries[i].lifecycle
  }

  /** An entry of a new identity gets one reconciliation row, which agrees with it. */
  ghost predicate IsReconciled(db: Db, db': Db)
    requires |db'.entries| > |db.entries|
  {
    var r := db'.entries[|db.entries|];
    && |db'.reconciliations| == |db.reconciliations| + 1 && db.reconciliations <= db'.reconciliations
    && var c := db'.reconciliations[|db.reconciliations|];
    && c.org == r.org && c.entry == |db.entries| && c.lifecycle == r.lifecycle && c.classification == r.classification
    && 0 <= c.score <= 5581
  }

  /** Where ids are unique, a case is refused exactly when another organization holds its id. */
  lemma RefusedIff(db: Db, org: string, id: CaseId)
    requires OneCase(db)
    ensures var p := OpenCase(db, org, id);
      && (p.Raised? <==> HeldByOther(db, org, id))
      && p.db == db.(cases := db.cases + if Held(db, id) then [] else [CaseRow(org, id)])
  {
  }

  lemma SameHolders(db: Db, db': Db, org: string, id: CaseId)
    requires db'.cases == db.cases
    ensures (Held(db', id) <==> Held(db, id)) && (HeldByOther(db', org, id) <==> HeldByOther(db, org, id))
  {
  }

  lemma KnownAdds(db: Db, org: string, e: A.Entry, report: Report, rid: nat, x: nat)
    requires OneLifecycle(db) && OneCase(db)
    requires x < |db.entries| && db.entries[x].org == org && db.entries[x].identity == e.identityHash
    ensures var p := KnownEntry(db, org, e, report, rid, x); AddsEntry(db, p, org, e, rid) && JoinsEarlier(db, p.db)
  {
    var db', l := KnownEntry(db, org, e, report, rid, x).db, db.entries[x].lifecycle;
    if Repeats(db, x, report, rid) {
      var r := EntryRow(org, rid, e.identityHash, l, A.DuplicateAccountEntry, DuplicateIdentity);
      var d := db.(entries := db.entries + [r]);
      RefusedIff(d, org, CaseIdOf(r));
      SameHolders(db, d, org, CaseIdOf(r));
    }
    forall i | 0 <= i < |db.entries| && SameIdentity(db'.entries[|db.entries|], db.entries[i])
      ensures db'.entries[|db.entries|].lifecycle == db.entries[i].lifecycle
    {
      assert SameIdentity(db.entries[x], db.entries[i]);
    }
  }

  lemma NeverDuplicate(evidence: A.Log, conflicts: seq<A.Clash>)
    ensures A.Classify(evidence, conflicts) != A.DuplicateAccountEntry
  {
  }

  lemma EngineAdds(en: A.Engine, db: Db, org: string, e: A.Entry, report: Report, rid: nat, l: nat)
    requires AllBare(db) && OneCase(db) && l < |db.lifecycles|
    ensures var o := A.Reconcile(en, e, report.account, ContextOf(db.lifecycles[l]));
      var p := ReconciledEntry(db, org, e, rid, l, o);
      AddsEntry(db, p, org, e, rid) && IsReconciled(db, p.db)
  {
    var o := A.Reconcile(en, e, report.account, ContextOf(db.lifecycles[l]));
    EngineOutcome(en, e, report.account, db.lifecycles[l]);
    NeverDuplicate(o.evidence, o.conflicts);
    OutcomeAdds(db, org, e, rid, l, o);
  }

  lemma OutcomeAdds(db: Db, org: string, e: A.Entry, rid: nat, l: nat, o: A.Outcome)
    requires OneCase(db) && 0 <= o.score <= 5581 && o.classification != A.DuplicateAccountEntry
    ensures var p := ReconciledEntry(db, org, e, rid, l, o); AddsEntry(db, p, org, e, rid) && IsReconciled(db, p.db)
  {
    var d, id := ClassifiedEntry(db, org, e, rid, l, o), AccountCase(PrefixOf(e.identityHash));
    RefusedIff(d, org, id);
    SameHolders(db, d, org, id);
  }

  lemma UnmatchedAdds(db: Db, org: string, e: A.Entry, rid: nat)
    ensures var db' := UnmatchedEntry(db, org, e, rid); AddsEntry(db, Going(db'), org, e, rid) && IsReconciled(db, db')
  {
  }

  /** What ingesting one entry adds, by whether its identity is new. */
  lemma OneEntryAdds(en: A.Engine, db: Db, org: string, e: A.Entry, report: Report, rid: nat, hint: Hint)
    requires Inv(db)
    ensures var p := OneEntry(en, db, org, e, report, rid, hint);
      && AddsEntry(db, p, org, e, rid)
      && (if NewIdentity(db, org, e.identityHash) then IsReconciled(db, p.db) else JoinsEarlier(db, p.db))
  {
    var existing, found := FindEntry(db, org, e.identityHash, hint), FindLifecycleForEntry(db, org, e, hint);
    if existing.Some? {
      assert IdentityQuery(org, e.identityHash)(db.entries[existing.value]);
      KnownAdds(db, org, e, report, rid, existing.value);
    } else {
      FreshIdentity(db, org, e.identityHash, hint, EntryRow(org, rid, e.identityHash, None, A.UnmatchedAccountEntry, NoLifecycle));
      if found.Some? {
        EngineAdds(en, db, org, e, report, rid, found.value);
      } else {
        UnmatchedAdds(db, org, e, rid);
      }
    }
  }

  lemma {:induction false} AfterEntriesKeeps(en: A.Engine, db: Db, org: string, entries: seq<A.Entry>,
                                             report: Report, rid: nat, hint: Hint)
    requires Inv(db) && rid < |db.reports| && db.reports[rid].reportType == report.reportType
    ensures var db' := AfterEntries(en, db, org, entries, report, rid, hint).db; Inv(db') && db'.reports == db.reports
  {
    if entries != [] {
      var front := entries[..|entries| - 1];
      AfterEntriesKeeps(en, db, org, front, report, rid, hint);
      OneEntryKeeps(en, AfterEntries(en, db, org, front, report, rid, hint).db, org, entries[|entries| - 1], report, rid, hint);
    }
  }

  lemma {:induction false} AfterReportsKeeps(en: A.Engine, db: Db, org: string, reports: seq<Report>, hint: Hint)
    requires Inv(db)
    ensures Inv(AfterReports(en, db, org, reports, hint).db)
  {
    if reports != [] {
      var front, last := reports[..|reports| - 1], reports[|reports| - 1];
      AfterReportsKeeps(en, db, org, front, hint);
      var d := AfterReports(en, db, org, front, hint).db;
      var d' := d.(reports := d.reports + [ReportRow(org, last.reportType)]);
      ReportKeeps(d, ReportRow(org, last.reportType));
      AfterEntriesKeeps(en, d', org, last.entries, last, |d.reports|, hint);
    }
  }

  lemma {:induction false} StatusesKeepAccounts(db: Db, org: string, a: Analysis, profiles: seq<Profile>, hint: Hint)
    ensures SameAccounts(db, AfterStatuses(db, org, a, profiles, hint))
  {
    if profiles != [] {
      StatusesKeepAccounts(db, org, a, profiles[..|profiles| - 1], hint);
    }
  }

  lemma {:induction false} PaymentsKeepAccounts(db: Db, org: string, now: int, a: Analysis, profiles: seq<Profile>, hint: Hint)
    ensures SameAccounts(db, AfterPayments(db, org, now, a, profiles, hint).0)
  {
    if profiles != [] {
      PaymentsKeepAccounts(db, org, now, a, profiles[..|profiles| - 1], hint);
    }
  }

  lemma {:induction false} StatusesKeepCases(db: Db, org: string, a: Analysis, profiles: seq<Profile>, hint: Hint)
    ensures AfterStatuses(db, org, a, profiles, hint).cases == db.cases
  {
    if profiles != [] {
      StatusesKeepCases(db, org, a, profiles[..|profiles| - 1], hint);
    }
  }

  lemma {:induction false} PaymentsKeepCases(db: Db, org: string, now: int, a: Analysis, profiles: seq<Profile>, hint: Hint)
    ensures AfterPayments(db, org, now, a, profiles, hint).0.cases == db.cases
  {
    if profiles != [] {
      PaymentsKeepCases(db, org, now, a, profiles[..|profiles| - 1], hint);
    }
  }

  lemma StatusesKeep(db: Db, org: string, a: Analysis, profiles: seq<Profile>, hint: Hint)
    requires Inv(db) && a.normalizedStatus.Some?
    ensures Inv(AfterStatuses(db, org, a, profiles, hint))
  {
    var db' := AfterStatuses(db, org, a, profiles, hint);
    AfterStatusesInv(db, org, a, profiles, hint);
    StatusesKeepAccounts(db, org, a, profiles, hint);
    StatusesKeepCases(db, org, a, profiles, hint);
    SameAccountsInv(db, db');
    SameCases(db, db');
  }

  /** Correlating a message keeps the invariant. */
  lemma CorrelationKeeps(db: Db, org: string, now: int, a: Analysis, hint: Hint)
    requires Inv(db) && FromPipeline(a)
    ensures Inv(AfterCorrelation(db, org, now, a, hint))
  {
    var db' := AfterCorrelation(db, org, now, a, hint);
    AfterCorrelationInv(db, org, now, a, hint);
    StatusesKeepAccounts(db, org, a, a.profiles, hint);
    StatusesKeepCases(db, org, a, a.profiles, hint);
    PaymentsKeepAccounts(db, org, now, a, a.profiles, hint);
    PaymentsKeepCases(db, org, now, a, a.profiles, hint);
    SameAccountsInv(db, db');
    SameCases(db, db');
  }

  lemma IngestKeeps(en: A.Engine, db: Db, org: string, now: int, msg: Message, hint: Hint)
    requires Inv(db)
    ensures Inv(Ingest(en, db, org, now, msg, hint))
  {
    var a := AnalysisOf(msg);
    var d := db.(messages := db.messages + [MessageRow(org, a.hash)]);
    MessageKeeps(db, MessageRow(org, a.hash));
    if a.reports != [] {
      AfterReportsKeeps(en, d, org, a.reports, hint);
    } else {
      PipelineResult(msg);
      CorrelationKeeps(d, org, now, a, hint);
    }
  }

  lemma MissingEventSame(db: Db, db': Db, org: string, cutoff: int, l: nat)
    requires db' == db.(cases := db'.cases)
    ensures MissingEvent(db', org, cutoff, l) <==> MissingEvent(db, org, cutoff, l)
  {
    assert HasEntry(db', org, l) == HasEntry(db, org, l);
  }

  lemma {:induction false} AfterMissingKeeps(db: Db, org: string, cutoff: int, n: nat)
    requires CaseInv(db)
    ensures CaseInv(AfterMissing(db, org, cutoff, n))
  {
    if n > 0 {
      AfterMissingKeeps(db, org, cutoff, n - 1);
      OnlyCases(db, org, cutoff, n - 1);
      if MissingEvent(db, org, cutoff, n - 1) {
        MissingOpened(AfterMissing(db, org, cutoff, n - 1), org, n - 1);
      }
    }
  }

  /** In every state that keeps the invariant, no case of a missing event is refused. */
  lemma DetectionIsNeverRefused(db: Db, org: string, cutoff: int, l: nat)
    requires CaseInv(db) && MissingEvent(db, org, cutoff, l)
    ensures OpenCase(AfterMissing(db, org, cutoff, l), org, MissingCase(l)).Going?
  {
    AfterMissingKeeps(db, org, cutoff, l);
    OnlyCases(db, org, cutoff, l);
    MissingOpened(AfterMissing(db, org, cutoff, l), org, l);
  }

  lemma ApplyKeeps(en: A.Engine, db: Db, step: Step)
    requires Inv(db)
    ensures Inv(Apply(en, db, step))
  {
    ApplyInv(en, db, step);
    match step
    case IngestMessage(org, now, msg, hint) => IngestKeeps(en, db, org, now, msg, hint);
    case DetectMissing(org, cutoff) =>
      var db' := AfterMissing(db, org, cutoff, |db.lifecycles|);
      AfterMissingKeeps(db, org, cutoff, |db.lifecycles|);
      OnlyCases(db, org, cutoff, |db.lifecycles|);
      SameAccountsInv(db, db');
  }

  /** The invariant holds over every run and every choice of existing row. */
  lemma {:induction false} RunKeeps(en: A.Engine, steps: seq<Step>)
    ensures Inv(Run(en, EMPTY_DB, steps))
  {
    if steps != [] {
      RunKeeps(en, steps[..|steps| - 1]);
      ApplyKeeps(en, Run(en, EMPTY_DB, steps[..|steps| - 1]), steps[|steps| - 1]);
    }
  }

  // ----- what the invariant says -----

  /** All entries of one organization with the same identity share one lifecycle. */
  lemma IdentityHasOneLifecycle(en: A.Engine, steps: seq<Step>, i: nat, j: nat)
    requires var db := Run(en, EMPTY_DB, steps);
      i < |db.entries| && j < |db.entries| && SameIdentity(db.entries[i], db.entries[j])
    ensures var db := Run(en, EMPTY_DB, steps); db.entries[i].lifecycle == db.entries[j].lifecycle
  {
    RunKeeps(en, steps);
  }

  /** Exactly one reconciliation row exists for the identity of each entry. */
  lemma IdentityHasOneReconciliation(en: A.Engine, steps: seq<Step>, i: nat)
    requires i < |Run(en, EMPTY_DB, steps).entries|
    ensures var db := Run(en, EMPTY_DB, steps);
      exists a :: 0 <= a < |db.reconciliations| && About(db, a, i)
        && forall b :: 0 <= b < |db.reconciliations| && About(db, b, i) ==> b == a
  {
    RunKeeps(en, steps);
    var db := Run(en, EMPTY_DB, steps);
    assert SomeRecon(db, i);
    var a :| 0 <= a < |db.reconciliations| && About(db, a, i);
    assert forall b :: 0 <= b < |db.reconciliations| && About(db, b, i) ==> b == a;
  }

  /** A RECONCILED entry was reconciled by the engine without conflict, on a strong identifier, amount
      and currency, or confirms an earlier entry of its identity from another report type. */
  lemma ReconciledIsGrounded(en: A.Engine, steps: seq<Step>, i: nat)
    requires var db := Run(en, EMPTY_DB, steps); i < |db.entries| && db.entries[i].classification == A.Reconciled
    ensures var db := Run(en, EMPTY_DB, steps); var r := db.entries[i];
      || (r.grounds.ByEngine? && EngineGrounds(r.grounds.outcome))
      || (r.grounds == Confirmed && exists j :: ConfirmsEarlier(db, i, j))
  {
    RunKeeps(en, steps);
    assert Grounded(Run(en, EMPTY_DB, steps), i);
  }

  /** No persisted reconciliation scores above 55.81, and no case id is held twice. */
  lemma ScoresAndCases(en: A.Engine, steps: seq<Step>)
    ensures var db := Run(en, EMPTY_DB, steps);
      && (forall a :: 0 <= a < |db.reconciliations| ==> 0 <= db.reconciliations[a].score <= 5581)
      && (forall i, j :: 0 <= i < j < |db.cases| ==> db.cases[i].caseId != db.cases[j].caseId)
  {
    RunKeeps(en, steps);
    var db := Run(en, EMPTY_DB, steps);
    forall a | 0 <= a < |db.reconciliations| ensures 0 <= db.reconciliations[a].score <= 5581 {
      assert ReconOk(db, db.reconciliations[a]);
    }
  }

  // ----- which exceptions have a case -----

  ghost predicate Holds(db: Db, k: nat, id: CaseId) { k < |db.cases| && db.cases[k].caseId == id }

  /** In every reachable state: the id of an exceptional entry is held by exactly one row, which belongs to
      the organization of the first exception with that prefix; so the entry's own organization has the
      case exactly when no other organization holds its id, exactly when it came first. */
  lemma CaseIffFirst(en: A.Engine, steps: seq<Step>, i: nat)
    requires var db := Run(en, EMPTY_DB, steps); i < |db.entries| && IsException(db.entries[i].classification)
    ensures var db := Run(en, EMPTY_DB, steps); var r := db.entries[i];
      exists j: nat, k: nat :: Opens(db, j, PrefixOf(r.identity)) && Holds(db, k, CaseIdOf(r))
        && (forall k': nat :: Holds(db, k', CaseIdOf(r)) ==> k' == k)
        && db.cases[k].org == db.entries[j].org
        && (CaseOf(r) in db.cases <==> db.entries[j].org == r.org)
        && (CaseOf(r) in db.cases <==> !HeldByOther(db, r.org, CaseIdOf(r)))
  {
    RunKeeps(en, steps);
    var db := Run(en, EMPTY_DB, steps);
    var r := db.entries[i];
    assert Cased(db, r);
    var k: nat :| k < |db.cases| && db.cases[k].caseId == CaseIdOf(r);
    assert RightOwner(db, db.cases[k]);
    var j: nat :| Opens(db, j, PrefixOf(r.identity)) && db.entries[j].org == db.cases[k].org;
    OneHolder(db, r, k);
    assert Holds(db, k, CaseIdOf(r));
  }

  lemma SameHolder(db: Db, k: nat, l: nat)
    requires OneCase(db) && k < |db.cases| && l < |db.cases| && db.cases[k].caseId == db.cases[l].caseId
    ensures k == l
  {
  }

  lemma OneHolder(db: Db, r: EntryRow, k: nat)
    requires OneCase(db) && Holds(db, k, CaseIdOf(r))
    ensures forall k': nat :: Holds(db, k', CaseIdOf(r)) ==> k' == k
    ensures CaseOf(r) in db.cases <==> db.cases[k].org == r.org
    ensures CaseOf(r) in db.cases <==> !HeldByOther(db, r.org, CaseIdOf(r))
  {
    forall k': nat | Holds(db, k', CaseIdOf(r)) ensures k' == k {
      SameHolder(db, k, k');
    }
  }

  /** The classes that open a case. */
  lemma ExceptionClasses(k: A.Classification)
    ensures IsException(k) <==> k != A.Reconciled && k != A.PossibleReconciliation && k != A.UnmatchedAccountEntry
  {
  }

  /** The first 16 characters agree, or the texts do. */
  predicate AgreeIn16(x: string, y: string) { x == y || (|x| >= 16 && |y| >= 16 && x[..16] == y[..16]) }

  lemma SamePrefixIs(x: string, y: string)
    ensures PrefixOf(x) == PrefixOf(y) <==> AgreeIn16(x, y)
  {
    assert |x| == 16 ==> x[..16] == x;
    assert |y| == 16 ==> y[..16] == y;
  }

  /** Two exceptional entries share one case exactly when the first 16 characters of their identities
      agree, whatever their classifications and their organizations. */
  lemma ExceptionsShareCases(en: A.Engine, steps: seq<Step>, i: nat, j: nat)
    requires var db := Run(en, EMPTY_DB, steps);
      && i < |db.entries| && IsException(db.entries[i].classification)
      && j < |db.entries| && IsException(db.entries[j].classification)
    ensures var db := Run(en, EMPTY_DB, steps); var r, s := db.entries[i], db.entries[j];
      exists k: nat, l: nat :: Holds(db, k, CaseIdOf(r)) && Holds(db, l, CaseIdOf(s))
        && (forall k': nat :: Holds(db, k', CaseIdOf(r)) ==> k' == k)
        && (k == l <==> AgreeIn16(r.identity, s.identity))
  {
    RunKeeps(en, steps);
    var db := Run(en, EMPTY_DB, steps);
    var r, s := db.entries[i], db.entries[j];
    assert Cased(db, r) && Cased(db, s);
    var k: nat :| k < |db.cases| && db.cases[k].caseId == CaseIdOf(r);
    var l: nat :| l < |db.cases| && db.cases[l].caseId == CaseIdOf(s);
    OneHolder(db, r, k);
    SamePrefixIs(r.identity, s.identity);
    assert Holds(db, k, CaseIdOf(r)) && Holds(db, l, CaseIdOf(s));
  }

  /** From `q`, ingesting the entry is refused: its row is stored, but another organization held its case. */
  ghost predicate RefusedEntry(q: Db, p: Db, org: string, e: A.Entry, rid: nat) {
    && |p.entries| == |q.entries| + 1 && q.entries <= p.entries && p.cases == q.cases
    && var r := p.entries[|q.entries|];
    && r.org == org && r.identity == e.identityHash && r.report == rid
    && IsException(r.classification) && HeldByOther(q, org, CaseIdOf(r)) && CaseOf(r) !in p.cases
  }

  lemma OtherNotOwn(db: Db, org: string, id: CaseId)
    requires OneCase(db) && HeldByOther(db, org, id)
    ensures CaseRow(org, id) !in db.cases
  {
    var k :| 0 <= k < |db.cases| && db.cases[k].caseId == id && db.cases[k].org != org;
    forall l | 0 <= l < |db.cases| ensures db.cases[l] != CaseRow(org, id) {
      if l != k {
        assert db.cases[l].caseId != db.cases[k].caseId;
      }
    }
  }

  lemma RefusedAdds(q: Db, p: Progress, org: string, e: A.Entry, rid: nat)
    requires OneCase(q) && AddsEntry(q, p, org, e, rid) && p.Raised?
    ensures RefusedEntry(q, p.db, org, e, rid)
  {
    OtherNotOwn(q, org, CaseIdOf(p.db.entries[|q.entries|]));
  }

  /** From `db`, `p` stored all entries, or those up to and including the first one that was refused. */
  ghost predicate Stored(en: A.Engine, db: Db, p: Progress, org: string, entries: seq<A.Entry>,
                         report: Report, rid: nat, hint: Hint) {
    if p.Going? then |p.db.entries| == |db.entries| + |entries|
    else
      var k := |p.db.entries| - |db.entries| - 1;
      && 0 <= k < |entries|
      && var q := AfterEntries(en, db, org, entries[..k], report, rid, hint);
      q.Going? && RefusedEntry(q.db, p.db, org, entries[k], rid)
  }

  lemma StoredBefore(en: A.Engine, db: Db, p: Progress, org: string, entries: seq<A.Entry>,
                     report: Report, rid: nat, hint: Hint)
    requires entries != [] && p.Raised? && Stored(en, db, p, org, entries[..|entries| - 1], report, rid, hint)
    ensures Stored(en, db, p, org, entries, report, rid, hint)
  {
    var k := |p.db.entries| - |db.entries| - 1;
    assert entries[..|entries| - 1][..k] == entries[..k];
  }

  /** A report is stored entry by entry: all of them, or those up to and including the first one whose
      case another organization holds. */
  lemma {:induction false} StopsAtFirstRefusal(en: A.Engine, db: Db, org: string, entries: seq<A.Entry>,
                                               report: Report, rid: nat, hint: Hint)
    requires Inv(db) && rid < |db.reports| && db.reports[rid].reportType == report.reportType
    ensures Stored(en, db, AfterEntries(en, db, org, entries, report, rid, hint), org, entries, report, rid, hint)
  {
    if entries != [] {
      var front, n := entries[..|entries| - 1], |entries| - 1;
      StopsAtFirstRefusal(en, db, org, front, report, rid, hint);
      var q := AfterEntries(en, db, org, front, report, rid, hint);
      if q.Raised? {
        StoredBefore(en, db, q, org, entries, report, rid, hint);
      } else {
        AfterEntriesKeeps(en, db, org, front, report, rid, hint);
        LastEntry(en, q.db, org, entries[n], report, rid, hint);
      }
    }
  }

  lemma LastEntry(en: A.Engine, q: Db, org: string, e: A.Entry, report: Report, rid: nat, hint: Hint)
    requires Inv(q)
    ensures var p := OneEntry(en, q, org, e, report, rid, hint);
      |p.db.entries| == |q.entries| + 1 && (p.Raised? ==> RefusedEntry(q, p.db, org, e, rid))
  {
    OneEntryAdds(en, q, org, e, report, rid, hint);
    var p := OneEntry(en, q, org, e, report, rid, hint);
    if p.Raised? {
      RefusedAdds(q, p, org, e, rid);
    }
  }

  // ----- missing account events -----

  lemma {:induction false} FlaggedExactly(db: Db, org: string, cutoff: int, n: nat, l: nat)
    ensures l in Flagged(db, org, cutoff, n) <==> l < n && MissingEvent(db, org, cutoff, l)
  {
    if n > 0 {
      FlaggedExactly(db, org, cutoff, n - 1, l);
    }
  }

  lemma {:induction false} CasesOpened(db: Db, org: string, cutoff: int, n: nat, c: CaseRow)
    requires CaseInv(db)
    ensures c in AfterMissing(db, org, cutoff, n).cases <==>
      c in db.cases || (c.org == org && c.caseId.MissingCase? && c.caseId.lifecycle in Flagged(db, org, cutoff, n))
  {
    if n > 0 {
      CasesOpened(db, org, cutoff, n - 1, c);
      if MissingEvent(db, org, cutoff, n - 1) {
        DetectionIsNeverRefused(db, org, cutoff, n - 1);
      }
    }
  }

  lemma {:induction false} NothingMore(db: Db, org: string, cutoff: int, n: nat)
    requires forall l :: l in Flagged(db, org, cutoff, n) ==> CaseRow(org, MissingCase(l)) in db.cases
    ensures AfterMissing(db, org, cutoff, n) == db
  {
    if n > 0 {
      NothingMore(db, org, cutoff, n - 1);
    }
  }

  lemma {:induction false} SameFlagged(db: Db, db': Db, org: string, cutoff: int, n: nat)
    requires db' == db.(cases := db'.cases)
    ensures Flagged(db', org, cutoff, n) == Flagged(db, org, cutoff, n)
  {
    if n > 0 {
      SameFlagged(db, db', org, cutoff, n - 1);
      MissingEventSame(db, db', org, cutoff, n - 1);
    }
  }

  /** Detection flags exactly the accepted, old lifecycles of the organization without an entry, opens a
      case for each, and repeating it flags the same ones and opens no further case. */
  lemma DetectionIdempotent(db: Db, org: string, cutoff: int)
    requires CaseInv(db)
    ensures var n := |db.lifecycles|; var db' := AfterMissing(db, org, cutoff, n);
      && (forall l :: l in Flagged(db, org, cutoff, n) <==> MissingEvent(db, org, cutoff, l))
      && (forall l :: MissingEvent(db, org, cutoff, l) ==> CaseRow(org, MissingCase(l)) in db'.cases)
      && Flagged(db', org, cutoff, n) == Flagged(db, org, cutoff, n)
      && AfterMissing(db', org, cutoff, n) == db'
  {
    var n := |db.lifecycles|;
    var db' := AfterMissing(db, org, cutoff, n);
    OnlyCases(db, org, cutoff, n);
    SameFlagged(db, db', org, cutoff, n);
    forall l: nat ensures l in Flagged(db, org, cutoff, n) <==> MissingEvent(db, org, cutoff, l) {
      FlaggedExactly(db, org, cutoff, n, l);
    }
    forall l | l in Flagged(db, org, cutoff, n) ensures CaseRow(org, MissingCase(l)) in db'.cases {
      CasesOpened(db, org, cutoff, n, CaseRow(org, MissingCase(l)));
    }
    NothingMore(db', org, cutoff, n);
  }

  lemma DetectionKeeps(en: A.Engine, db: Db, org: string, cutoff: int)
    requires Inv(db)
    ensures var n := |db.lifecycles|; var db' := AfterMissing(db, org, cutoff, n);
      && Inv(db') && Extends(db, db') && db'.lifecycles == db.lifecycles
      && (forall l :: l in Flagged(db, org, cutoff, n) <==> MissingEvent(db, org, cutoff, l))
      && (forall l :: l in Flagged(db, org, cutoff, n) ==> CaseRow(org, MissingCase(l)) in db'.cases)
  {
    ApplyKeeps(en, db, DetectMissing(org, cutoff));
    ApplyInv(en, db, DetectMissing(org, cutoff));
    DetectionIdempotent(db, org, cutoff);
    OnlyCases(db, org, cutoff, |db.lifecycles|);
  }
}
