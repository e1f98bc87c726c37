// Lifecycle correlation: do two sets of identifiers belong to the same payment?
module Correlation {
  import opened Strings
  import Narrowing

  datatype Profile = Profile(
    messageId: Option<string>, originalMessageId: Option<string>, instructionId: Option<string>,
    endToEndId: Option<string>, transactionId: Option<string>, amount: Option<int>, currency: Option<string>,
    reference: Option<string>, account: Option<string>,
    debtorAccount: Option<string>, creditorAccount: Option<string>)

  datatype Evidence =
    | OriginalMessageIdExact | MessageIdExact | TransactionIdExact | EndToEndIdExact | InstructionIdExact
    | AmountExact | CurrencyExact | ReferenceExact | AccountExact

  datatype Label = TransactionIdConflict | EndToEndIdConflict | InstructionIdConflict

  datatype Status = Correlated | PossibleCorrelation | Unresolved | Conflict

  datatype Result = Result(status: Status, evidence: seq<Evidence>, conflicts: seq<Label>)

  /** A present, non-empty identifier. */
  predicate Given(x: Option<string>) { x.Some? && x.value != "" }

  function OrElse(a: Option<string>, b: Option<string>): Option<string> { if Given(a) then a else b }

  predicate Agree(a: Option<string>, b: Option<string>) { Given(a) && Given(b) && a == b }

  predicate Differ(a: Option<string>, b: Option<string>) { Given(a) && Given(b) && a != b }

  predicate SameMoney(a: Profile, b: Profile) { a.amount.Some? && a.amount == b.amount && Agree(a.currency, b.currency) }

  predicate SameReference(norm: string -> string, a: Profile, b: Profile) {
    Given(a.reference) && Given(b.reference) && norm(a.reference.value) != ""
    && norm(a.reference.value) == norm(b.reference.value)
  }

  predicate SameAccount(a: Profile, b: Profile) {
    Given(a.account) && Given(b.account)
    && Narrowing.Without(a.account.value, {' '}) == Narrowing.Without(b.account.value, {' '})
  }

  /** `if c: xs.append(x)` */
  function Add<T>(xs: seq<T>, c: bool, x: T): seq<T> { if c then xs + [x] else xs }

  lemma InAdd<T>(xs: seq<T>, c: bool, x: T, y: T)
    ensures y in Add(xs, c, x) <==> y in xs || (c && y == x)
  {
  }

  function MessageEvidence(a: Profile, b: Profile): seq<Evidence> {
    if Agree(a.messageId, b.originalMessageId) || Agree(a.originalMessageId, b.messageId) then [OriginalMessageIdExact]
    else if Agree(a.messageId, b.messageId) then [MessageIdExact]
    else []
  }

  function IdentifierEvidence(a: Profile, b: Profile): seq<Evidence> {
    var e1 := Add(MessageEvidence(a, b), Agree(a.transactionId, b.transactionId), TransactionIdExact);
    var e2 := Add(e1, Agree(a.endToEndId, b.endToEndId), EndToEndIdExact);
    Add(e2, Agree(a.instructionId, b.instructionId), InstructionIdExact)
  }

  function EvidenceOf(norm: string -> string, a: Profile, b: Profile): seq<Evidence> {
    var e1 := Add(IdentifierEvidence(a, b), SameMoney(a, b), AmountExact);
    var e2 := Add(e1, SameMoney(a, b), CurrencyExact);
    var e3 := Add(e2, SameReference(norm, a, b), ReferenceExact);
    Add(e3, SameAccount(a, b), AccountExact)
  }

  function ConflictsOf(a: Profile, b: Profile): seq<Label> {
    var c1 := Add([], Differ(a.transactionId, b.transactionId), TransactionIdConflict);
    var c2 := Add(c1, Differ(a.endToEndId, b.endToEndId), EndToEndIdConflict);
    Add(c2, Differ(a.instructionId, b.instructionId), InstructionIdConflict)
  }

  function StatusOf(evidence: seq<Evidence>, conflicts: seq<Label>): Status {
    if conflicts != [] then Conflict
    else if OriginalMessageIdExact in evidence || MessageIdExact in evidence || TransactionIdExact in evidence then Correlated
    else if EndToEndIdExact in evidence || InstructionIdExact in evidence then PossibleCorrelation
    else if AmountExact in evidence && CurrencyExact in evidence then PossibleCorrelation
    else Unresolved
  }

  function Correlate(norm: string -> string, a: Profile, b: Profile): Result {
    var evidence, conflicts := EvidenceOf(norm, a, b), ConflictsOf(a, b);
    Result(StatusOf(evidence, conflicts), evidence, conflicts)
  }

  /** `_compare_identifier` */
  method CompareIdentifier(a: Option<string>, b: Option<string>, code: Evidence, conflict: Label,
                           evidence: seq<Evidence>, conflicts: seq<Label>)
    returns (evidence': seq<Evidence>, conflicts': seq<Label>)
    ensures evidence' == Add(evidence, Agree(a, b), code)
    ensures conflicts' == Add(conflicts, Differ(a, b), conflict)
  {
    evidence', conflicts' := evidence, conflicts;
    if !Given(a) || !Given(b) {
      return;
    }
    if a.value == b.value {
      evidence' := evidence' + [code];
    } else {
      conflicts' := conflicts' + [conflict];
    }
  }

  /** `correlate_profiles` */
  method CorrelateProfiles(norm: string -> string, a: Profile, b: Profile) returns (r: Result)
    ensures r == Correlate(norm, a, b)
  {
    var evidence: seq<Evidence>, conflicts: seq<Label> := [], [];
    if Given(a.messageId) && Given(b.originalMessageId) && a.messageId == b.originalMessageId {
      evidence := evidence + [OriginalMessageIdExact];
    } else if Given(a.originalMessageId) && Given(b.messageId) && a.originalMessageId == b.messageId {
      evidence := evidence + [OriginalMessageIdExact];
    } else if Given(a.messageId) && Given(b.messageId) && a.messageId == b.messageId {
      evidence := evidence + [MessageIdExact];
    }
    assert evidence == MessageEvidence(a, b);
    evidence, conflicts := CompareIdentifier(
      a.transactionId, b.transactionId, TransactionIdExact, TransactionIdConflict, evidence, conflicts);
    evidence, conflicts := CompareIdentifier(
      a.endToEndId, b.endToEndId, EndToEndIdExact, EndToEndIdConflict, evidence, conflicts);
    evidence, conflicts := CompareIdentifier(
      a.instructionId, b.instructionId, InstructionIdExact, InstructionIdConflict, evidence, conflicts);
    assert evidence == IdentifierEvidence(a, b);
    evidence := CompareContext(norm, a, b, evidence);
    r := Result(StatusOf(evidence, conflicts), evidence, conflicts);
  }

  /** Amount, reference and account: supporting evidence only. */
  method CompareContext(norm: string -> string, a: Profile, b: Profile, before: seq<Evidence>) returns (evidence: seq<Evidence>)
    requires before == IdentifierEvidence(a, b)
    ensures evidence == EvidenceOf(norm, a, b)
  {
    evidence := before;
    if SameMoney(a, b) {
      evidence := evidence + [AmountExact];
      evidence := evidence + [CurrencyExact];
    }
    if SameReference(norm, a, b) {
      evidence := evidence + [ReferenceExact];
    }
    if SameAccount(a, b) {
      evidence := evidence + [AccountExact];
    }
  }

  // ----- what the status means -----

  predicate AnyConflict(a: Profile, b: Profile) {
    Differ(a.transactionId, b.transactionId) || Differ(a.endToEndId, b.endToEndId) || Differ(a.instructionId, b.instructionId)
  }

  predicate MessagesLinked(a: Profile, b: Profile) {
    Agree(a.messageId, b.originalMessageId) || Agree(a.originalMessageId, b.messageId) || Agree(a.messageId, b.messageId)
  }

  lemma IdentifierMember(a: Profile, b: Profile, y: Evidence)
    ensures y in IdentifierEvidence(a, b) <==>
      match y
      case OriginalMessageIdExact => Agree(a.messageId, b.originalMessageId) || Agree(a.originalMessageId, b.messageId)
      case MessageIdExact =>
        Agree(a.messageId, b.messageId)
        && !Agree(a.messageId, b.originalMessageId) && !Agree(a.originalMessageId, b.messageId)
      case TransactionIdExact => Agree(a.transactionId, b.transactionId)
      case EndToEndIdExact => Agree(a.endToEndId, b.endToEndId)
      case InstructionIdExact => Agree(a.instructionId, b.instructionId)
      case _ => false
  {
    var e0 := MessageEvidence(a, b);
    InAdd(e0, Agree(a.transactionId, b.transactionId), TransactionIdExact, y);
    var e1 := Add(e0, Agree(a.transactionId, b.transactionId), TransactionIdExact);
    InAdd(e1, Agree(a.endToEndId, b.endToEndId), EndToEndIdExact, y);
    var e2 := Add(e1, Agree(a.endToEndId, b.endToEndId), EndToEndIdExact);
    InAdd(e2, Agree(a.instructionId, b.instructionId), InstructionIdExact, y);
  }

  lemma ContextMember(norm: string -> string, a: Profile, b: Profile, y: Evidence)
    ensures y in EvidenceOf(norm, a, b) <==>
      || y in IdentifierEvidence(a, b)
      || (SameMoney(a, b) && (y == AmountExact || y == CurrencyExact))
      || (SameReference(norm, a, b) && y == ReferenceExact) || (SameAccount(a, b) && y == AccountExact)
  {
    var e0 := IdentifierEvidence(a, b);
    InAdd(e0, SameMoney(a, b), AmountExact, y);
    var e1 := Add(e0, SameMoney(a, b), AmountExact);
    InAdd(e1, SameMoney(a, b), CurrencyExact, y);
    var e2 := Add(e1, SameMoney(a, b), CurrencyExact);
    InAdd(e2, SameReference(norm, a, b), ReferenceExact, y);
    var e3 := Add(e2, SameReference(norm, a, b), ReferenceExact);
    InAdd(e3, SameAccount(a, b), AccountExact, y);
  }

  predicate Finds(norm: string -> string, a: Profile, b: Profile, y: Evidence) { y in EvidenceOf(norm, a, b) }

  lemma Members(norm: string -> string, a: Profile, b: Profile, y: Evidence)
    ensures y.TransactionIdExact? ==> (Finds(norm, a, b, y) <==> Agree(a.transactionId, b.transactionId))
    ensures y.EndToEndIdExact? ==> (Finds(norm, a, b, y) <==> Agree(a.endToEndId, b.endToEndId))
    ensures y.InstructionIdExact? ==> (Finds(norm, a, b, y) <==> Agree(a.instructionId, b.instructionId))
    ensures y.AmountExact? || y.CurrencyExact? ==> (Finds(norm, a, b, y) <==> SameMoney(a, b))
    ensures y.OriginalMessageIdExact? ==>
      (Finds(norm, a, b, y) <==> Agree(a.messageId, b.originalMessageId) || Agree(a.originalMessageId, b.messageId))
    ensures y.MessageIdExact? && Finds(norm, a, b, y) ==> Agree(a.messageId, b.messageId)
    ensures y.MessageIdExact? && !Finds(norm, a, b, y) && Agree(a.messageId, b.messageId) ==>
      Agree(a.messageId, b.originalMessageId) || Agree(a.originalMessageId, b.messageId)
  {
    IdentifierMember(a, b, y);
    ContextMember(norm, a, b, y);
  }

  lemma SomeConflict(a: Profile, b: Profile)
    ensures ConflictsOf(a, b) != [] <==> AnyConflict(a, b)
  {
  }

  /** The status in terms of the identifiers themselves. A conflict between any two transaction-level
      identifiers overrides everything; amount, reference and account never establish correlation. */
  lemma StatusMeans(norm: string -> string, a: Profile, b: Profile)
    ensures var s := Correlate(norm, a, b).status;
      var strong := MessagesLinked(a, b) || Agree(a.transactionId, b.transactionId);
      var weak := Agree(a.endToEndId, b.endToEndId) || Agree(a.instructionId, b.instructionId) || SameMoney(a, b);
      && (s == Conflict <==> AnyConflict(a, b))
      && (s == Correlated <==> !AnyConflict(a, b) && strong)
      && (s == PossibleCorrelation <==> !AnyConflict(a, b) && !strong && weak)
      && (s == Unresolved <==> !AnyConflict(a, b) && !strong && !weak)
  {
    SomeConflict(a, b);
    Members(norm, a, b, OriginalMessageIdExact);
    Members(norm, a, b, MessageIdExact);
    Members(norm, a, b, TransactionIdExact);
    Members(norm, a, b, EndToEndIdExact);
    Members(norm, a, b, InstructionIdExact);
    Members(norm, a, b, AmountExact);
    Members(norm, a, b, CurrencyExact);
  }

  /** Correlation does not depend on which profile comes first. */
  lemma StatusSymmetric(norm: string -> string, a: Profile, b: Profile)
    ensures Correlate(norm, a, b).status == Correlate(norm, b, a).status
  {
    StatusMeans(norm, a, b);
    StatusMeans(norm, b, a);
  }
}
