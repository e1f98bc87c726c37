// What payments, status reports and account entries do to the stored lifecycles, in terms of the fields of
// the messages themselves: which identifier finds which lifecycle, and what a new lifecycle carries.
module MessageLaws {
  import opened Strings
  import opened Correlation
  import opened Ingestion
  import opened LifecycleLaws
  import opened AccountLaws
  import A = AccountReconciliation

  // ----- identifiers, kind for kind -----

  predicate SharesPayment(l: Lifecycle, org: string, tx: PaymentTx) {
    && l.org == org
    && (|| (Given(tx.transactionId) && l.transactionId == tx.transactionId)
        || (Given(tx.endToEndId) && l.endToEndId == tx.endToEndId)
        || (Given(tx.instructionId) && l.instructionId == tx.instructionId))
  }

  predicate SharesStatus(l: Lifecycle, org: string, st: StatusTx) {
    && l.org == org
    && (|| (Given(st.originalTransactionId) && l.transactionId == st.originalTransactionId)
        || (Given(st.originalEndToEndId) && l.endToEndId == st.originalEndToEndId)
        || (Given(st.originalInstructionId) && l.instructionId == st.originalInstructionId))
  }

  predicate SharesEntry(l: Lifecycle, org: string, e: A.Entry) {
    && l.org == org
    && (|| (Given(e.transactionId) && l.transactionId == e.transactionId)
        || (Given(e.endToEndId) && l.endToEndId == e.endToEndId)
        || (Given(e.instructionId) && l.instructionId == e.instructionId))
  }

  ghost predicate PaymentKnown(db: Db, org: string, tx: PaymentTx) {
    exists l :: 0 <= l < |db.lifecycles| && SharesPayment(db.lifecycles[l], org, tx)
  }

  ghost predicate StatusKnown(db: Db, org: string, st: StatusTx) {
    exists l :: 0 <= l < |db.lifecycles| && SharesStatus(db.lifecycles[l], org, st)
  }

  ghost predicate EntryKnown(db: Db, org: string, e: A.Entry) {
    exists l :: 0 <= l < |db.lifecycles| && SharesEntry(db.lifecycles[l], org, e)
  }

  /** The lifecycle a payment starts. */
  predicate StartedBy(l: Lifecycle, org: string, now: int, tx: PaymentTx) {
    && l.org == org && l.transactionId == tx.transactionId && l.endToEndId == tx.endToEndId && l.instructionId == tx.instructionId
    && l.amount == (if tx.amount.Some? then Some(tx.amount.value.minor) else None)
    && l.currency == (if tx.amount.Some? then Some(tx.amount.value.currency) else None)
    && l.originalMessageId.None? && l.uetr.None? && l.debtorAccount.None? && l.creditorAccount.None?
    && l.currentStatus == UnknownStatus && l.createdAt == now
  }

  predicate PaymentEvent(e: Event, org: string, l: nat, kind: PaymentKind) {
    && e.org == org && e.lifecycle == l && e.origin == FromPayment && e.status == Some(UnknownStatus)
    && (match kind
        case Initiation => e.eventType == Initiated
        case InterbankTransfer => e.eventType == InterbankTransferred
        case FiTransfer => e.eventType == FiTransferred)
  }

  predicate StatusEventOf(e: Event, org: string, l: nat, status: PaymentStatus) {
    && e.org == org && e.lifecycle == l && e.origin == FromStatus && e.status == Some(status)
    && (match status
        case Accepted => e.eventType == StatusAccepted
        case Rejected => e.eventType == StatusRejected
        case Pending => e.eventType == StatusPending
        case Processing => e.eventType == StatusProcessing
        case PartiallyAccepted => e.eventType == StatusProcessing
        case UnknownStatus => e.eventType == StatusReceived)
  }

  // ----- searching -----

  lemma FindsPayment(db: Db, org: string, tx: PaymentTx, messageId: Option<string>, hint: Hint)
    requires AllBare(db)
    ensures var found := FindLifecycle(db, org, ServiceProfile(ProfileOfTx(tx, messageId)), hint);
      && (found.Some? <==> PaymentKnown(db, org, tx))
      && (found.Some? ==> found.value < |db.lifecycles| && SharesPayment(db.lifecycles[found.value], org, tx))
  {
    var p := ServiceProfile(ProfileOfTx(tx, messageId));
    forall l | 0 <= l < |db.lifecycles| ensures ProfileQuery(org, p)(db.lifecycles[l]) <==> SharesPayment(db.lifecycles[l], org, tx) {
      assert Bare(db.lifecycles[l]);
    }
    PickIff(db.lifecycles, ProfileQuery(org, p), hint(db));
  }

  lemma FindsStatus(db: Db, org: string, st: StatusTx, messageId: Option<string>, original: Option<string>, hint: Hint)
    requires AllBare(db)
    ensures var found := FindLifecycle(db, org, ServiceProfile(ProfileOfStatus(st, messageId, original)), hint);
      && (found.Some? <==> StatusKnown(db, org, st))
      && (found.Some? ==> found.value < |db.lifecycles| && SharesStatus(db.lifecycles[found.value], org, st))
  {
    var p := ServiceProfile(ProfileOfStatus(st, messageId, original));
    forall l | 0 <= l < |db.lifecycles| ensures ProfileQuery(org, p)(db.lifecycles[l]) <==> SharesStatus(db.lifecycles[l], org, st) {
      assert Bare(db.lifecycles[l]);
    }
    PickIff(db.lifecycles, ProfileQuery(org, p), hint(db));
  }

  lemma FindsEntry(db: Db, org: string, e: A.Entry, hint: Hint)
    requires AllBare(db)
    ensures var found := FindLifecycleForEntry(db, org, e, hint);
      && (found.Some? <==> EntryKnown(db, org, e))
      && (found.Some? ==> found.value < |db.lifecycles| && SharesEntry(db.lifecycles[found.value], org, e))
  {
    forall l | 0 <= l < |db.lifecycles| ensures EntryQuery(org, e)(db.lifecycles[l]) <==> SharesEntry(db.lifecycles[l], org, e) {
      assert Bare(db.lifecycles[l]);
    }
    PickIff(db.lifecycles, EntryQuery(org, e), hint(db));
  }

  /** A query yields a row exactly when one matches. */
  lemma PickIff<T>(rows: seq<T>, p: T -> bool, hint: nat)
    ensures Pick(rows, p, hint).Some? <==> exists k :: 0 <= k < |rows| && p(rows[k])
  {
    if Pick(rows, p, hint).None? {
      forall k: nat | k < |rows| ensures !p(rows[k]) {
        PickNone(rows, p, hint, k);
      }
    }
  }

  // ----- one transaction of a payment message -----

  /** The message with its first `k` transactions. */
  function FirstTxs(msg: Message, k: nat): Message
    requires msg.Payment? && k <= |msg.transactions|
  {
    Payment(msg.kind, msg.hash, msg.messageId, msg.transactions[..k])
  }

  /** From `before`, the transaction joins a lifecycle that shares an identifier with it, or starts one. */
  ghost predicate JoinsOrStarts(before: Db, after: Db, org: string, now: int, kind: PaymentKind, tx: PaymentTx) {
    && |after.events| == |before.events| + 1 && before.events <= after.events
    && var e := after.events[|before.events|];
    if PaymentKnown(before, org, tx) then
      && after.lifecycles == before.lifecycles
      && e.lifecycle < |before.lifecycles| && SharesPayment(before.lifecycles[e.lifecycle], org, tx)
      && PaymentEvent(e, org, e.lifecycle, kind)
    else
      && |after.lifecycles| == |before.lifecycles| + 1 && before.lifecycles <= after.lifecycles
      && StartedBy(after.lifecycles[|before.lifecycles|], org, now, tx)
      && PaymentEvent(e, org, |before.lifecycles|, kind)
  }

  lemma OneTx(db: Db, org: string, now: int, msg: Message, a: Analysis, tx: PaymentTx, hint: Hint)
    requires AllBare(db) && msg.Payment? && a.version == AnalysisOf(msg).version && a.normalizedStatus.None?
    ensures JoinsOrStarts(db, OnePayment(db, org, now, a, ServiceProfile(ProfileOfTx(tx, msg.messageId)), hint).0,
                          org, now, msg.kind, tx)
  {
    FindsPayment(db, org, tx, msg.messageId, hint);
  }

  lemma LastProfile(txs: seq<PaymentTx>, k: nat, messageId: Option<string>)
    requires k < |txs|
    ensures ProfilesOfTxs(txs[..k + 1], messageId) == ProfilesOfTxs(txs[..k], messageId) + [ProfileOfTx(txs[k], messageId)]
  {
    assert txs[..k + 1][..k] == txs[..k];
  }

  /** What the service does for the profiles of a payment message; no status is set. */
  lemma PaymentIngested(en: A.Engine, db: Db, org: string, now: int, msg: Message, hint: Hint)
    requires msg.Payment? && MessageRow(org, msg.hash) !in db.messages
    ensures Ingest(en, db, org, now, msg, hint)
      == AfterPayments(db.(messages := db.messages + [MessageRow(org, msg.hash)]), org, now, AnalysisOf(msg),
                       ProfilesOfTxs(msg.transactions, msg.messageId), hint).0
  {
  }

  lemma {:induction false} SameForProfiles(db: Db, org: string, now: int, a: Analysis, b: Analysis, profiles: seq<Profile>, hint: Hint)
    requires a.version == b.version && a.normalizedStatus == b.normalizedStatus
    ensures AfterPayments(db, org, now, a, profiles, hint) == AfterPayments(db, org, now, b, profiles, hint)
  {
    if profiles != [] {
      SameForProfiles(db, org, now, a, b, profiles[..|profiles| - 1], hint);
    }
  }

  /** From every state that keeps the invariant: the next transaction of a payment message joins a
      lifecycle of the organization that shares one of its identifiers, kind for kind, or starts one that
      carries exactly its identifiers, its amount and its currency. */
  lemma PaymentStep(en: A.Engine, db: Db, org: string, now: int, msg: Message, hint: Hint, k: nat)
    requires LifeInv(db) && msg.Payment? && MessageRow(org, msg.hash) !in db.messages && k < |msg.transactions|
    ensures JoinsOrStarts(Ingest(en, db, org, now, FirstTxs(msg, k), hint), Ingest(en, db, org, now, FirstTxs(msg, k + 1), hint),
                          org, now, msg.kind, msg.transactions[k])
  {
    var d := db.(messages := db.messages + [MessageRow(org, msg.hash)]);
    var a, b := AnalysisOf(FirstTxs(msg, k)), AnalysisOf(FirstTxs(msg, k + 1));
    var front := ProfilesOfTxs(msg.transactions[..k], msg.messageId);
    PaymentIngested(en, db, org, now, FirstTxs(msg, k), hint);
    PaymentIngested(en, db, org, now, FirstTxs(msg, k + 1), hint);
    LastProfile(msg.transactions, k, msg.messageId);
    SameForProfiles(d, org, now, a, b, front, hint);
    IngestInv(en, db, org, now, FirstTxs(msg, k), hint);
    NextPayment(d, org, now, b, front, ProfileOfTx(msg.transactions[k], msg.messageId), hint);
    OneTx(Ingest(en, db, org, now, FirstTxs(msg, k), hint), org, now, msg, b, msg.transactions[k], hint);
  }

  lemma NextPayment(db: Db, org: string, now: int, a: Analysis, front: seq<Profile>, p: Profile, hint: Hint)
    ensures AfterPayments(db, org, now, a, front + [p], hint).0
      == OnePayment(AfterPayments(db, org, now, a, front, hint).0, org, now, a, ServiceProfile(p), hint).0
  {
    assert (front + [p])[..|front|] == front;
  }

  // ----- one status of a report -----

  /** The report with its first `k` statuses. */
  function FirstStatuses(msg: Message, k: nat): Message
    requires msg.StatusReport? && k <= |msg.statuses|
  {
    StatusReport(msg.hash, msg.messageId, msg.originalMessageId, msg.groupStatus, msg.statuses[..k])
  }

  /** From `before`, the status is recorded on a lifecycle that shares an identifier, or nothing happens. */
  ghost predicate RecordsStatus(before: Db, after: Db, org: string, st: StatusTx, written: PaymentStatus) {
    if StatusKnown(before, org, st) then
      && |after.events| == |before.events| + 1 && before.events <= after.events
      && var i := after.events[|before.events|].lifecycle;
      && i < |before.lifecycles| && SharesStatus(before.lifecycles[i], org, st)
      && StatusEventOf(after.events[|before.events|], org, i, written)
      && after.lifecycles == before.lifecycles[i := before.lifecycles[i].(currentStatus := written)]
    else after.events == before.events && after.lifecycles == before.lifecycles
  }

  lemma OneStatusRecorded(db: Db, org: string, a: Analysis, st: StatusTx, messageId: Option<string>, original: Option<string>, hint: Hint)
    requires AllBare(db) && a.version.Pacs002? && a.normalizedStatus.Some?
    ensures RecordsStatus(db, OneStatus(db, org, a, ServiceProfile(ProfileOfStatus(st, messageId, original)), hint),
                          org, st, a.normalizedStatus.value)
  {
    FindsStatus(db, org, st, messageId, original, hint);
  }

  lemma LastStatusProfile(sts: seq<StatusTx>, k: nat, id: Option<string>, original: Option<string>)
    requires k < |sts|
    ensures ProfilesOfStatuses(sts[..k + 1], id, original)
      == ProfilesOfStatuses(sts[..k], id, original) + [ProfileOfStatus(sts[k], id, original)]
  {
    assert sts[..k + 1][..k] == sts[..k];
  }

  lemma ReportIngested(en: A.Engine, db: Db, org: string, now: int, msg: Message, hint: Hint)
    requires msg.StatusReport? && MessageRow(org, msg.hash) !in db.messages
    ensures Ingest(en, db, org, now, msg, hint)
      == AfterStatuses(db.(messages := db.messages + [MessageRow(org, msg.hash)]), org, AnalysisOf(msg),
                       ProfilesOfStatuses(msg.statuses, msg.messageId, msg.originalMessageId), hint)
  {
  }

  lemma {:induction false} SameForStatuses(db: Db, org: string, a: Analysis, b: Analysis, profiles: seq<Profile>, hint: Hint)
    requires profiles != [] ==> a.version == b.version && a.normalizedStatus == b.normalizedStatus
    ensures AfterStatuses(db, org, a, profiles, hint) == AfterStatuses(db, org, b, profiles, hint)
  {
    if profiles != [] {
      SameForStatuses(db, org, a, b, profiles[..|profiles| - 1], hint);
    }
  }

  lemma NextStatus(db: Db, org: string, a: Analysis, front: seq<Profile>, p: Profile, hint: Hint)
    ensures AfterStatuses(db, org, a, front + [p], hint) == OneStatus(AfterStatuses(db, org, a, front, hint), org, a, ServiceProfile(p), hint)
  {
    assert (front + [p])[..|front|] == front;
  }

  /** From every state that keeps the invariant: the next status of a report finds a lifecycle exactly when
      one of the organization shares one of its identifiers, kind for kind; it then records one event and
      the report's first status there, and otherwise nothing. */
  lemma StatusStep(en: A.Engine, db: Db, org: string, now: int, msg: Message, hint: Hint, k: nat)
    requires LifeInv(db) && msg.StatusReport? && MessageRow(org, msg.hash) !in db.messages && k < |msg.statuses|
    ensures RecordsStatus(Ingest(en, db, org, now, FirstStatuses(msg, k), hint), Ingest(en, db, org, now, FirstStatuses(msg, k + 1), hint),
                          org, msg.statuses[k], msg.statuses[0].status)
  {
    var d := db.(messages := db.messages + [MessageRow(org, msg.hash)]);
    var a, b := AnalysisOf(FirstStatuses(msg, k)), AnalysisOf(FirstStatuses(msg, k + 1));
    var front := ProfilesOfStatuses(msg.statuses[..k], msg.messageId, msg.originalMessageId);
    ReportIngested(en, db, org, now, FirstStatuses(msg, k), hint);
    ReportIngested(en, db, org, now, FirstStatuses(msg, k + 1), hint);
    LastStatusProfile(msg.statuses, k, msg.messageId, msg.originalMessageId);
    SameForStatuses(d, org, a, b, front, hint);
    IngestInv(en, db, org, now, FirstStatuses(msg, k), hint);
    NextStatus(d, org, b, front, ProfileOfStatus(msg.statuses[k], msg.messageId, msg.originalMessageId), hint);
    OneStatusRecorded(Ingest(en, db, org, now, FirstStatuses(msg, k), hint), org, b, msg.statuses[k], msg.messageId,
                      msg.originalMessageId, hint);
  }

  // ----- whole messages -----

  predicate SameLives(before: Db, after: Db) { after.lifecycles == before.lifecycles && after.events == before.events }

  /** The transactions in turn, each joining or starting a lifecycle. */
  ghost predicate PaymentTrace(before: Db, after: Db, org: string, now: int, kind: PaymentKind, txs: seq<PaymentTx>)
    decreases |txs|
  {
    if txs == [] then SameLives(before, after)
    else
      var front, last := txs[..|txs| - 1], txs[|txs| - 1];
      exists mid :: PaymentTrace(before, mid, org, now, kind, front) && JoinsOrStarts(mid, after, org, now, kind, last)
  }

  /** The statuses in turn, each recorded with the same written status. */
  ghost predicate StatusTrace(before: Db, after: Db, org: string, statuses: seq<StatusTx>, written: PaymentStatus)
    decreases |statuses|
  {
    if statuses == [] then SameLives(before, after)
    else
      var front, last := statuses[..|statuses| - 1], statuses[|statuses| - 1];
      exists mid :: StatusTrace(before, mid, org, front, written) && RecordsStatus(mid, after, org, last, written)
  }

  lemma {:induction false} PaymentTraced(en: A.Engine, db: Db, org: string, now: int, msg: Message, hint: Hint, k: nat)
    requires LifeInv(db) && msg.Payment? && MessageRow(org, msg.hash) !in db.messages && k <= |msg.transactions|
    ensures PaymentTrace(db, Ingest(en, db, org, now, FirstTxs(msg, k), hint), org, now, msg.kind, msg.transactions[..k])
  {
    var after := Ingest(en, db, org, now, FirstTxs(msg, k), hint);
    if k == 0 {
      PaymentIngested(en, db, org, now, FirstTxs(msg, 0), hint);
      assert msg.transactions[..0] == [];
    } else {
      var txs := msg.transactions[..k];
      PaymentTraced(en, db, org, now, msg, hint, k - 1);
      PaymentStep(en, db, org, now, msg, hint, k - 1);
      assert txs[..k - 1] == msg.transactions[..k - 1] && txs[k - 1] == msg.transactions[k - 1];
      NextTrace(db, Ingest(en, db, org, now, FirstTxs(msg, k - 1), hint), after, org, now, msg.kind, txs);
    }
  }

  lemma NextTrace(before: Db, mid: Db, after: Db, org: string, now: int, kind: PaymentKind, txs: seq<PaymentTx>)
    requires txs != [] && PaymentTrace(before, mid, org, now, kind, txs[..|txs| - 1])
    requires JoinsOrStarts(mid, after, org, now, kind, txs[|txs| - 1])
    ensures PaymentTrace(before, after, org, now, kind, txs)
  {
  }

  lemma {:induction false} StatusTraced(en: A.Engine, db: Db, org: string, now: int, msg: Message, hint: Hint, k: nat)
    requires LifeInv(db) && msg.StatusReport? && MessageRow(org, msg.hash) !in db.messages && k <= |msg.statuses| && msg.statuses != []
    ensures StatusTrace(db, Ingest(en, db, org, now, FirstStatuses(msg, k), hint), org, msg.statuses[..k], msg.statuses[0].status)
  {
    var after := Ingest(en, db, org, now, FirstStatuses(msg, k), hint);
    if k == 0 {
      NoStatuses(en, db, org, now, FirstStatuses(msg, 0), hint);
      assert msg.statuses[..0] == [];
    } else {
      var statuses := msg.statuses[..k];
      StatusTraced(en, db, org, now, msg, hint, k - 1);
      StatusStep(en, db, org, now, msg, hint, k - 1);
      assert statuses[..k - 1] == msg.statuses[..k - 1] && statuses[k - 1] == msg.statuses[k - 1];
      NextStatusTrace(db, Ingest(en, db, org, now, FirstStatuses(msg, k - 1), hint), after, org, statuses, msg.statuses[0].status);
    }
  }

  lemma NextStatusTrace(before: Db, mid: Db, after: Db, org: string, statuses: seq<StatusTx>, written: PaymentStatus)
    requires statuses != [] && StatusTrace(before, mid, org, statuses[..|statuses| - 1], written)
    requires RecordsStatus(mid, after, org, statuses[|statuses| - 1], written)
    ensures StatusTrace(before, after, org, statuses, written)
  {
  }

  /** Under a new hash, a payment is its transactions in turn, and a status report its statuses in turn, each
      writing the first one's status; a report that lists none touches no lifecycle. */
  lemma MessageMeans(en: A.Engine, db: Db, org: string, now: int, msg: Message, hint: Hint)
    requires LifeInv(db) && MessageRow(org, msg.hash) !in db.messages
    ensures MeansMessage(db, Ingest(en, db, org, now, msg, hint), org, now, msg)
  {
    if msg.Payment? {
      PaymentTraced(en, db, org, now, msg, hint, |msg.transactions|);
      assert msg.transactions[..|msg.transactions|] == msg.transactions;
    } else if msg.StatusReport? {
      if msg.statuses == [] {
        NoStatuses(en, db, org, now, msg, hint);
      } else {
        StatusTraced(en, db, org, now, msg, hint, |msg.statuses|);
        assert msg.statuses[..|msg.statuses|] == msg.statuses;
      }
    }
  }

  ghost predicate MeansMessage(before: Db, after: Db, org: string, now: int, msg: Message) {
    && (msg.Payment? ==> PaymentTrace(before, after, org, now, msg.kind, msg.transactions))
    && (msg.StatusReport? && msg.statuses != [] ==> StatusTrace(before, after, org, msg.statuses, msg.statuses[0].status))
    && (msg.StatusReport? && msg.statuses == [] ==> SameLives(before, after))
  }

  // ----- one account entry -----

  /** The class of an entry, read off its own fields and those of the lifecycle it is compared with. */
  function ExpectedClass(en: A.Engine, e: A.Entry, l: Lifecycle): A.Classification {
    var currency := A.EntryCurrency(e);
    var amounts := e.amount.Some? && l.amount.Some?;
    var currencies := Given(currency) && Given(l.currency);
    var strong := A.SameId(en, e.transactionId, l.transactionId) || A.SameId(en, e.endToEndId, l.endToEndId)
                  || A.SameId(en, e.instructionId, l.instructionId);
    var otherId := A.OtherId(en, e.transactionId, l.transactionId) || A.OtherId(en, e.endToEndId, l.endToEndId)
                   || A.OtherId(en, e.instructionId, l.instructionId);
    if currencies && en.upper(currency.value) != en.upper(l.currency.value) then A.CurrencyMismatch
    else if amounts && e.amount.value.minor != l.amount.value then A.AmountMismatch
    else if otherId then A.ReviewRequired
    else if strong && amounts && currencies then A.Reconciled
    else if strong || (amounts && currencies) then A.PossibleReconciliation
    else A.UnmatchedAccountEntry
  }

  lemma ClassIsExpected(en: A.Engine, e: A.Entry, account: Option<A.AccountRef>, l: Lifecycle)
    requires Bare(l)
    ensures A.Reconcile(en, e, account, ContextOf(l)).classification == ExpectedClass(en, e, l)
  {
    A.ClassMeans(en, e, account, ContextOf(l));
  }

  lemma NewWithout(en: A.Engine, db: Db, org: string, e: A.Entry, report: Report, rid: nat, hint: Hint)
    requires FindEntry(db, org, e.identityHash, hint).None? && FindLifecycleForEntry(db, org, e, hint).None?
    ensures OneEntry(en, db, org, e, report, rid, hint) == Going(UnmatchedEntry(db, org, e, rid))
  {
  }

  lemma NewWith(en: A.Engine, db: Db, org: string, e: A.Entry, report: Report, rid: nat, hint: Hint, l: nat)
    requires FindEntry(db, org, e.identityHash, hint).None? && FindLifecycleForEntry(db, org, e, hint) == Some(l)
    ensures OneEntry(en, db, org, e, report, rid, hint)
      == ReconciledEntry(db, org, e, rid, l, A.Reconcile(en, e, report.account, ContextOf(db.lifecycles[l])))
  {
  }

  /** The row and the event of an entry that was compared with lifecycle `l`. */
  predicate ComparedWith(db: Db, db': Db, org: string, e: A.Entry, l: nat, k: A.Classification) {
    && |db'.entries| == |db.entries| + 1 && |db'.events| == |db.events| + 1
    && db'.entries[|db.entries|].lifecycle == Some(l) && db'.entries[|db.entries|].classification == k
    && db'.events[|db.events|]
         == Event(org, l, FromAccount, if e.creditDebit == Some(A.Debit) then DebitRecorded else CreditRecorded, None)
  }

  lemma ComparedRows(db: Db, org: string, e: A.Entry, rid: nat, l: nat, o: A.Outcome)
    ensures ComparedWith(db, ReconciledEntry(db, org, e, rid, l, o).db, org, e, l, o.classification)
  {
  }

  /** What becomes of an entry of a new identity. */
  ghost predicate EntryOutcome(en: A.Engine, db: Db, db': Db, org: string, e: A.Entry) {
    && |db'.entries| == |db.entries| + 1
    && var r := db'.entries[|db.entries|];
    if !EntryKnown(db, org, e) then
      r.lifecycle.None? && r.classification == A.UnmatchedAccountEntry && db'.events == db.events
    else
      && r.lifecycle.Some? && r.lifecycle.value < |db.lifecycles|
      && SharesEntry(db.lifecycles[r.lifecycle.value], org, e)
      && ComparedWith(db, db', org, e, r.lifecycle.value, ExpectedClass(en, e, db.lifecycles[r.lifecycle.value]))
  }

  /** An entry of a new identity is compared with a lifecycle exactly when one of the organization shares one
      of its identifiers, kind for kind; its class is then read off its fields and those of that lifecycle. */
  lemma EntryStep(en: A.Engine, db: Db, org: string, e: A.Entry, report: Report, rid: nat, hint: Hint)
    requires AllBare(db) && NewIdentity(db, org, e.identityHash)
    ensures EntryOutcome(en, db, OneEntry(en, db, org, e, report, rid, hint).db, org, e)
  {
    FindsEntry(db, org, e, hint);
    NewIsNew(db, org, e.identityHash, hint);
    var found := FindLifecycleForEntry(db, org, e, hint);
    if found.None? {
      NewWithout(en, db, org, e, report, rid, hint);
    } else {
      NewWith(en, db, org, e, report, rid, hint, found.value);
      ClassIsExpected(en, e, report.account, db.lifecycles[found.value]);
      ComparedRows(db, org, e, rid, found.value, A.Reconcile(en, e, report.account, ContextOf(db.lifecycles[found.value])));
    }
  }

  /** The row and the event of an entry that repeats or confirms entry `x`. */
  predicate FollowsEntry(db: Db, db': Db, org: string, e: A.Entry, report: Report, rid: nat, x: nat) {
    && x < |db.entries| && db.entries[x].org == org && db.entries[x].identity == e.identityHash
    && db.entries[x].report < |db.reports| && |db'.entries| == |db.entries| + 1
    && var repeats := db.entries[x].report == rid || db.reports[db.entries[x].report].reportType == report.reportType;
    && var r := db'.entries[|db.entries|];
    && r.lifecycle == db.entries[x].lifecycle
    && r.classification == (if repeats then A.DuplicateAccountEntry else A.Reconciled)
    && db'.events == db.events + if repeats || r.lifecycle.None? then []
                                 else [Event(org, r.lifecycle.value, FromAccount, AccountEventConfirmed, None)]
  }

  /** An entry of a known identity repeats an earlier one of it, from the same report or from a report of
      the same type, or confirms it from the other type. */
  lemma KnownStep(en: A.Engine, db: Db, org: string, e: A.Entry, report: Report, rid: nat, hint: Hint)
    requires Placed(db) && !NewIdentity(db, org, e.identityHash)
    ensures exists x: nat :: FollowsEntry(db, OneEntry(en, db, org, e, report, rid, hint).db, org, e, report, rid, x)
  {
    var k :| 0 <= k < |db.entries| && db.entries[k].org == org && db.entries[k].identity == e.identityHash;
    var existing := FindEntry(db, org, e.identityHash, hint);
    if existing.None? {
      PickNone(db.entries, IdentityQuery(org, e.identityHash), hint(db), k);
    } else {
      assert IdentityQuery(org, e.identityHash)(db.entries[existing.value]);
      KnownRows(db, org, e, report, rid, existing.value);
      KnownWith(en, db, org, e, report, rid, hint, existing.value);
    }
  }

  lemma KnownWith(en: A.Engine, db: Db, org: string, e: A.Entry, report: Report, rid: nat, hint: Hint, x: nat)
    requires FindEntry(db, org, e.identityHash, hint) == Some(x)
    ensures OneEntry(en, db, org, e, report, rid, hint) == KnownEntry(db, org, e, report, rid, x)
  {
  }

  lemma KnownRows(db: Db, org: string, e: A.Entry, report: Report, rid: nat, x: nat)
    requires x < |db.entries| && db.entries[x].org == org && db.entries[x].identity == e.identityHash
    requires db.entries[x].report < |db.reports|
    ensures FollowsEntry(db, KnownEntry(db, org, e, report, rid, x).db, org, e, report, rid, x)
  {
  }

  lemma NewIsNew(db: Db, org: string, identity: string, hint: Hint)
    requires NewIdentity(db, org, identity)
    ensures FindEntry(db, org, identity, hint).None?
  {
    PickNothing(db.entries, IdentityQuery(org, identity), hint(db));
  }

  // ----- from the payment to what finds it -----

  ghost predicate Carried(db: Db, org: string, tx: PaymentTx) {
    exists l :: 0 <= l < |db.lifecycles| && CarriesAll(db.lifecycles[l], org, tx)
  }

  /** A lifecycle with exactly the payment's identifiers, amount and currency. */
  predicate CarriesAll(l: Lifecycle, org: string, tx: PaymentTx) {
    && l.org == org && l.transactionId == tx.transactionId && l.endToEndId == tx.endToEndId && l.instructionId == tx.instructionId
    && l.amount == (if tx.amount.Some? then Some(tx.amount.value.minor) else None)
    && l.currency == (if tx.amount.Some? then Some(tx.amount.value.currency) else None)
  }

  lemma KnownLater(db: Db, db': Db, org: string, tx: PaymentTx)
    requires Extends(db, db')
    ensures PaymentKnown(db, org, tx) ==> PaymentKnown(db', org, tx)
    ensures Carried(db, org, tx) ==> Carried(db', org, tx)
  {
    if PaymentKnown(db, org, tx) {
      var l :| 0 <= l < |db.lifecycles| && SharesPayment(db.lifecycles[l], org, tx);
      assert SameIdentifiers(db.lifecycles[l], db'.lifecycles[l]);
      assert SharesPayment(db'.lifecycles[l], org, tx);
    }
    if Carried(db, org, tx) {
      var l :| 0 <= l < |db.lifecycles| && CarriesAll(db.lifecycles[l], org, tx);
      assert SameIdentifiers(db.lifecycles[l], db'.lifecycles[l]);
      assert CarriesAll(db'.lifecycles[l], org, tx);
    }
  }

  lemma {:induction false} MoreTxsExtend(en: A.Engine, db: Db, org: string, now: int, msg: Message, hint: Hint, k: nat)
    requires LifeInv(db) && msg.Payment? && MessageRow(org, msg.hash) !in db.messages && k <= |msg.transactions|
    ensures Extends(Ingest(en, db, org, now, FirstTxs(msg, k), hint), Ingest(en, db, org, now, msg, hint))
    decreases |msg.transactions| - k
  {
    if k == |msg.transactions| {
      assert FirstTxs(msg, k) == msg;
    } else {
      var now_, next := Ingest(en, db, org, now, FirstTxs(msg, k), hint), Ingest(en, db, org, now, FirstTxs(msg, k + 1), hint);
      PaymentStep(en, db, org, now, msg, hint, k);
      MoreTxsExtend(en, db, org, now, msg, hint, k + 1);
      ExtendsTwice(now_, next, Ingest(en, db, org, now, msg, hint));
    }
  }

  lemma AfterItsTurn(before: Db, after: Db, org: string, now: int, kind: PaymentKind, tx: PaymentTx)
    requires JoinsOrStarts(before, after, org, now, kind, tx)
    ensures HasSomeId(tx) ==> PaymentKnown(after, org, tx)
    ensures !PaymentKnown(before, org, tx) ==> Carried(after, org, tx)
  {
    if PaymentKnown(before, org, tx) {
      var l :| 0 <= l < |before.lifecycles| && SharesPayment(before.lifecycles[l], org, tx);
      assert SharesPayment(after.lifecycles[l], org, tx);
    } else {
      var n := |before.lifecycles|;
      assert CarriesAll(after.lifecycles[n], org, tx);
      assert HasSomeId(tx) ==> SharesPayment(after.lifecycles[n], org, tx);
    }
  }

  predicate HasSomeId(tx: PaymentTx) { Given(tx.transactionId) || Given(tx.endToEndId) || Given(tx.instructionId) }

  /** In every run, from the moment a payment message is ingested under a new hash and after any later
      steps: each transaction with an identifier has a lifecycle of the organization that shares one, and
      each transaction that found none at its turn has one that carries all it has. */
  lemma PaymentHasLifecycle(en: A.Engine, steps: seq<Step>, org: string, now: int, msg: Message, hint: Hint, later: seq<Step>, k: nat)
    requires msg.Payment? && MessageRow(org, msg.hash) !in Run(en, EMPTY_DB, steps).messages && k < |msg.transactions|
    ensures var s := Run(en, EMPTY_DB, steps);
      var db := Run(en, Ingest(en, s, org, now, msg, hint), later);
      var tx := msg.transactions[k];
      && (HasSomeId(tx) ==> PaymentKnown(db, org, tx))
      && (!PaymentKnown(Ingest(en, s, org, now, FirstTxs(msg, k), hint), org, tx) ==> Carried(db, org, tx))
  {
    var s := Run(en, EMPTY_DB, steps);
    var tx := msg.transactions[k];
    RunInv(en, EMPTY_DB, steps);
    PaymentStep(en, s, org, now, msg, hint, k);
    var before, after := Ingest(en, s, org, now, FirstTxs(msg, k), hint), Ingest(en, s, org, now, FirstTxs(msg, k + 1), hint);
    AfterItsTurn(before, after, org, now, msg.kind, tx);
    MoreTxsExtend(en, s, org, now, msg, hint, k + 1);
    var all := Ingest(en, s, org, now, msg, hint);
    IngestInv(en, s, org, now, msg, hint);
    RunInv(en, all, later);
    KnownLater(after, all, org, tx);
    KnownLater(all, Run(en, all, later), org, tx);
  }

  /** The status, or the entry, carries one of the payment's identifiers, kind for kind, and perhaps no other. */
  predicate RefersTo(st: StatusTx, tx: PaymentTx) {
    || (Given(tx.transactionId) && st.originalTransactionId == tx.transactionId)
    || (Given(tx.endToEndId) && st.originalEndToEndId == tx.endToEndId)
    || (Given(tx.instructionId) && st.originalInstructionId == tx.instructionId)
  }

  predicate Names(e: A.Entry, tx: PaymentTx) {
    || (Given(tx.transactionId) && e.transactionId == tx.transactionId)
    || (Given(tx.endToEndId) && e.endToEndId == tx.endToEndId)
    || (Given(tx.instructionId) && e.instructionId == tx.instructionId)
  }

  lemma CarriedIsFound(db: Db, org: string, tx: PaymentTx, st: StatusTx, e: A.Entry)
    requires Carried(db, org, tx)
    ensures RefersTo(st, tx) ==> StatusKnown(db, org, st)
    ensures Names(e, tx) ==> EntryKnown(db, org, e)
  {
    var l :| 0 <= l < |db.lifecycles| && CarriesAll(db.lifecycles[l], org, tx);
    assert RefersTo(st, tx) ==> SharesStatus(db.lifecycles[l], org, st);
    assert Names(e, tx) ==> SharesEntry(db.lifecycles[l], org, e);
  }

  /** A payment that started a lifecycle is found again, after any steps, by a status that carries no more
      than one of its identifiers: the status is recorded and becomes the current one. */
  lemma StatusReachesPayment(en: A.Engine, steps: seq<Step>, org: string, now: int, msg: Message, hint: Hint, later: seq<Step>, k: nat,
                             now': int, report: Message, hint': Hint)
    requires msg.Payment? && MessageRow(org, msg.hash) !in Run(en, EMPTY_DB, steps).messages && k < |msg.transactions|
    requires !PaymentKnown(Ingest(en, Run(en, EMPTY_DB, steps), org, now, FirstTxs(msg, k), hint), org, msg.transactions[k])
    requires report.StatusReport? && |report.statuses| == 1 && RefersTo(report.statuses[0], msg.transactions[k])
    requires MessageRow(org, report.hash) !in Run(en, Ingest(en, Run(en, EMPTY_DB, steps), org, now, msg, hint), later).messages
    ensures var db := Run(en, Ingest(en, Run(en, EMPTY_DB, steps), org, now, msg, hint), later);
      var db' := Ingest(en, db, org, now', report, hint');
      && |db'.events| == |db.events| + 1
      && var i := db'.events[|db.events|].lifecycle;
      && i < |db.lifecycles| && SharesStatus(db.lifecycles[i], org, report.statuses[0])
      && i < |db'.lifecycles| && db'.lifecycles[i].currentStatus == report.statuses[0].status
  {
    var s := Run(en, EMPTY_DB, steps);
    var all := Ingest(en, s, org, now, msg, hint);
    var db := Run(en, all, later);
    RunInv(en, EMPTY_DB, steps);
    IngestInv(en, s, org, now, msg, hint);
    RunInv(en, all, later);
    PaymentHasLifecycle(en, steps, org, now, msg, hint, later, k);
    CarriedIsFound(db, org, msg.transactions[k], report.statuses[0], NO_ENTRY);
    SingleStatus(en, db, org, now', report, hint');
  }

  const NO_ENTRY := A.Entry("", None, None, None, None, None, None, None, None, None)

  lemma SingleStatus(en: A.Engine, db: Db, org: string, now: int, report: Message, hint: Hint)
    requires LifeInv(db) && report.StatusReport? && |report.statuses| == 1 && MessageRow(org, report.hash) !in db.messages
    ensures RecordsStatus(db, Ingest(en, db, org, now, report, hint), org, report.statuses[0], report.statuses[0].status)
  {
    StatusStep(en, db, org, now, report, hint, 0);
    assert FirstStatuses(report, 1) == report;
    NoStatuses(en, db, org, now, FirstStatuses(report, 0), hint);
  }

  lemma NoStatuses(en: A.Engine, db: Db, org: string, now: int, report: Message, hint: Hint)
    requires report.StatusReport? && report.statuses == [] && MessageRow(org, report.hash) !in db.messages
    ensures Ingest(en, db, org, now, report, hint) == db.(messages := db.messages + [MessageRow(org, report.hash)])
  {
  }

  /** Likewise an account entry that carries no more than one of its identifiers is reconciled with such a
      lifecycle. */
  lemma EntryReachesPayment(en: A.Engine, steps: seq<Step>, org: string, now: int, msg: Message, hint: Hint, later: seq<Step>, k: nat,
                            e: A.Entry, report: Report, rid: nat, hint': Hint)
    requires msg.Payment? && MessageRow(org, msg.hash) !in Run(en, EMPTY_DB, steps).messages && k < |msg.transactions|
    requires !PaymentKnown(Ingest(en, Run(en, EMPTY_DB, steps), org, now, FirstTxs(msg, k), hint), org, msg.transactions[k])
    requires Names(e, msg.transactions[k])
    requires NewIdentity(Run(en, Ingest(en, Run(en, EMPTY_DB, steps), org, now, msg, hint), later), org, e.identityHash)
    ensures var db := Run(en, Ingest(en, Run(en, EMPTY_DB, steps), org, now, msg, hint), later);
      var db' := OneEntry(en, db, org, e, report, rid, hint').db;
      && |db'.entries| == |db.entries| + 1
      && var found := db'.entries[|db.entries|].lifecycle;
      found.Some? && found.value < |db.lifecycles| && SharesEntry(db.lifecycles[found.value], org, e)
  {
    var all := Ingest(en, Run(en, EMPTY_DB, steps), org, now, msg, hint);
    var db := Run(en, all, later);
    RunKeeps(en, steps);
    IngestKeeps(en, Run(en, EMPTY_DB, steps), org, now, msg, hint);
    RunsKeep(en, all, later);
    PaymentHasLifecycle(en, steps, org, now, msg, hint, later, k);
    CarriedIsFound(db, org, msg.transactions[k], NO_STATUS, e);
    EntryStep(en, db, org, e, report, rid, hint');
  }

  const NO_STATUS := StatusTx(None, None, None, UnknownStatus, None, None, None)

  lemma {:induction false} RunsKeep(en: A.Engine, db: Db, steps: seq<Step>)
    requires Inv(db)
    ensures Inv(Run(en, db, steps))
  {
    if steps != [] {
      RunsKeep(en, db, steps[..|steps| - 1]);
      ApplyKeeps(en, Run(en, db, steps[..|steps| - 1]), steps[|steps| - 1]);
    }
  }

  // ----- missing account events -----

  /** In every reachable state the lifecycles that detection flags are exactly those of the organization
      whose latest status is ACCEPTED, which were created before the cutoff, and of which no account entry
      of the organization is known. */
  lemma DetectionMeans(en: A.Engine, steps: seq<Step>, org: string, cutoff: int, l: nat)
    ensures var db := Run(en, EMPTY_DB, steps);
      l in Flagged(db, org, cutoff, |db.lifecycles|) <==>
        && l < |db.lifecycles| && db.lifecycles[l].org == org
        && LatestStatus(db.events, l) == Accepted && db.lifecycles[l].createdAt < cutoff
        && forall k :: 0 <= k < |db.entries| && db.entries[k].org == org ==> db.entries[k].lifecycle != Some(l)
  {
    var db := Run(en, EMPTY_DB, steps);
    FlaggedExactly(db, org, cutoff, |db.lifecycles|, l);
    if l < |db.lifecycles| {
      StatusIsLatest(en, steps, l);
    }
  }
}
