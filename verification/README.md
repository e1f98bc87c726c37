# CloudNova PaymentOps: a verified model

CloudNova PaymentOps reads bank payment data (ISO 20022 XML, JSON, CSV), maps it to one canonical
payment model, proposes address repairs, follows payments through their status and account reports,
and matches records against each other. This project models that domain logic in Dafny and proves
what the system promises about it: that a repair changes exactly what it proposes, that the ingestion
services keep their invariants over every run, that matching is bounded, symmetric and one-to-one,
that a mapping reads back what it wrote, and that lockouts and circuit breakers cost the time they
are supposed to cost.

Where the code works step by step, the model does too: an edited XML document, the stored tables of
the services, a reconciliation run, a mapped transaction, a user table, a circuit breaker and a batch
job are classes whose methods update their fields, and every loop of the source that updates
variables is a loop here. Each such method is proved equal to a function of the old state, and the
laws are proved about those functions, over all inputs and all runs. Code made of expressions is
functions.

`dafny verify dfyconfig.toml` checks everything.

## How the files fit together

| Part | Files |
|---|---|
| Shared notions | `Strings` (split, join, trim, decimals), `Sorting` (Python's stable `sorted`), `Words` (whitespace), `TextLaws` (what stripping, words and element text mean) |
| XML repair as a lens | `XmlTree` (tree, paths, one change), `Pacs008` (the adapter and its printed paths), `Pacs008Roles` (every role at its literal path), `RepairLens` (one edited leaf, seen by the adapter), `RepairEngine` (the change list and the lens law), `XmlRepair` (the document edited in place, one change, commutation), `RepairMeaning` (a whole repair field by field), `RepairFrame` (what a whole change list leaves alone), `RepairOrder` (its changes in any order), `Candidates` (candidate status, content model), `MappedRepair` (candidates of mapped messages), `Countries` and `CloudNova` (the address provider and its fixpoint), `AddressLaws` (what it resolves, by the tokens of the lines), `RepairExample` |
| Ingestion | `Correlation`, `AccountReconciliation` (the two engines), `AgreementLaws` (when fields agree), `Ingestion` (tables and steps), `IsoService` (the services that update them), `LifecycleLaws` and `AccountLaws` (invariants over every run), `MessageLaws` (what the fields of a message do to the tables), `IngestionExamples` |
| Matching | `Matcher` (score, conflicts, class), `MatchDifferences` (what a difference does to a decision), `Narrowing` (candidate filter), `NarrowingLaws` (what it asks of two records), `MatchRuns` (greedy runs), `MatchOutcomes` (what becomes of one source) |
| Mapping | `Selectors` (path language), `SelectorLaws` (each step by its printed form), `Mapping` (what the setters and rule paths mean), `MappingLaws` (what a validated definition guarantees), `RecordLaws` (what a target reads of the record), `Mapper` (the setters that write in place) |
| Small machines | `DeletionOrder`, `FailureLimiter`, `UserService`, `CircuitBreaker`, `BatchService` |

An XML document is one immutable tree value held by an object. That the original of a repair is
unchanged therefore says that the repair works on a copy of its own; aliasing between a shallow and a
deep copy is not modelled.

Rows of a table are positions in a sequence. A query without an order (`scalars().first()`) is an
arbitrary choice among the matching rows: each step carries a `Hint` function that names the row, and
every law holds for every hint. Hashing, Unicode functions, fuzzy similarity, password verification
and schema validation are parameters about which nothing is assumed except what a lemma names.

## Where the code and its own descriptions differ

The model follows the code. For each point there is the exact condition and, where a property fails, a
concrete input.

- The payment hash covers the reception time (`packages/payment_domain/models.py:288`), so replaying a
  payment message is not caught by the hash. `LifecycleLaws.ReplayAddsAnonymousOnly` says exactly how
  many lifecycles and events such a replay adds, `IngestionExamples.NamelessReplay` is a payment that
  is counted twice, and `LifecycleLaws.SameHashChangesNothing` covers every message that does arrive
  under a known hash.
- A pacs.002 report writes the status of its first transaction to every lifecycle it finds
  (`LifecycleLaws.ReportWritesFirstStatus`). A lifecycle ends with the status of its own transaction
  exactly when that is also the first status (`LifecycleLaws.OwnStatusIff`); in
  `IngestionExamples.RejectionLost` a rejected transaction ends ACCEPTED.
- Profiles lose their account fields on the way into the service, and lifecycle rows never carry an
  original message id, a UETR or an account (`LifecycleLaws.RunInv`), so persisted reconciliation
  scores stay at or below 55.81 (`AccountLaws.ScoresAndCases`), which `IngestionExamples.LargestScore`
  reaches.
- The account evidence counts twice when both accounts of a payment are the account of the entry. The
  score then exceeds 100 exactly when all identifiers, the servicer reference, the amount and the
  reference agree as well and at most one of currency and direction is missing
  (`AccountReconciliation.ScoreRange`); the largest score is 106.98
  (`AccountReconciliation.ScoreAbove100`).
- Cases are meant to be one per entry and classification, and are keyed by the first 16 characters of
  the entry's identity, which names no organization. The look-up is by id and organization, but the id
  alone is the table's key (`apps/api/paymentops_api/db/models/analysis.py:28`). So all exceptions with
  one prefix share one case, whatever their classification or organization
  (`AccountLaws.ExceptionsShareCases`), and an exception's own organization has its case exactly when
  the first exception with that prefix was its own (`AccountLaws.CaseIffFirst`). Otherwise the insert is
  refused after the entry was stored; the ingestion stops there (`AccountLaws.StopsAtFirstRefusal`), and
  sending the message again does nothing. `IngestionExamples.TwoClassificationsOneCase` and
  `IngestionExamples.TwoOrganizationsOneCase` are runs of each kind. Cases of missing events are never
  refused (`AccountLaws.DetectionIsNeverRefused`).
- Narrowing is meant never to drop a candidate for missing data. A candidate that agrees with the source
  wherever both carry data scores 100 without conflict (`Matcher.CompatibleScores100`), but survives
  exactly when the amount lies in its own window, some kind of date is given on both sides (or one side
  has none), and reference and account are each read from the same field on both sides or agree across
  fields (`Narrowing.CompatiblePasses`). `Narrowing.DroppedOnMissingReference`,
  `Narrowing.DroppedOnSourceReference`, `Narrowing.DroppedOnSourceAccount` and
  `Narrowing.DroppedOnDisjointDates` are candidates that would score 100 and are dropped, for a text the
  candidate lacks, for a text the source lacks, and for dates of different kinds.
- A negative amount leaves an empty amount window, so narrowing keeps no candidate that has an amount
  (`Narrowing.NegativeAmountMatchesNothing`); `Narrowing.TwinSurvives` gives the exact condition under
  which a record's twin survives. Under a negative date tolerance a date differs from itself
  (`Matcher.CompareTwins`).
- A score of 100 does not mean that every weighted field agrees: rounding hides fields that together weigh
  at most one part in 20000 of what the two records share. `MatchDifferences.FullShareIff` and
  `MatchDifferences.FullScoreAgrees` give the exact condition, `MatchDifferences.FullScoreDespiteDifference`
  a pair that differs and scores 100. A critical difference is a conflict at any score
  (`MatchDifferences.CriticalDifference`).
- A source that raises after it was counted is counted twice, once by class and once as failed
  (`MatchRuns.CountersPartition`, and `MatchRuns.CountedTwice` for a run of one source). The fault meant
  is one raised by `_persist_candidate` itself, while it dumps the decision's fields or adds the row to
  the session; it writes nothing, so a row that the database refuses fails the final commit and with it
  the whole run, which is not modelled.
- With no change to propose, a candidate is called validated without any check
  (`Candidates.GenerateCandidate`); `RepairExample.RejectedButValidated` is a document that the schema
  rejects and the rules block.
- The changes proposed for a mapped (non-XML) message are never applied: the transaction index is read
  from the step that holds the party label (`MappedRepair.MappedRepairIsIdle`; `MappedRepair.CountryLost`
  is a message with a proposed country that it never gets).
- A second repair pass still finds something to change when a town was taken from an address line with
  repeated inner whitespace; `CloudNova.OnePassSuffices` says one pass suffices exactly when there is no
  such town, `RepairExample.SecondPassNeeded` is a document with one, and `CloudNova.TwoPassesSuffice`
  says that two passes always do.
- A deletion order exists for cyclic foreign keys too, and is then not safe
  (`DeletionOrder.SafeIffAcyclic`, `DeletionOrder.TwoTableCycle`).

## Model

| member | source | states |
|---|---|---|
| `Pacs008.ReadOriginalFields` | packages/iso_engine/pacs008/adapter.py:135-142 | The loop that fills `original_fields` keeps exactly the address fields that carry text, trimmed. |
| `Pacs008.SegmentsOfPath` | packages/repair_engine/xml_reconstruction.py:69-73 | Splitting a printed path gives back its steps, for every list of non-empty, slash-free steps. |
| `Pacs008.TxStepParses` | packages/repair_engine/xml_reconstruction.py:88-94 | The printed step `CdtTrfTxInf[i]` parses back to that name and that index, for every index. |
| `Pacs008.ReadAtPrintedPaths` | packages/iso_engine/pacs008/adapter.py:34-157 | For every document and transaction, each identifier, name, account and agent field, address field, address line, remittance line and amount the adapter reports is what is found by following the path printed beside it. |
| `Pacs008Roles.RolesReadAtLiteralPaths` | packages/iso_engine/pacs008/adapter.py:34-157 | For every document and index, at literal paths: a transaction is there exactly when `CdtTrfTxInf[i]` leads to an element; its identifiers stand below `PmtId`, its amount at `Amt/InstdAmt`, debtor and creditor at `Dbtr` and `Cdtr`, their accounts at `DbtrAcct` and `CdtrAcct`, their agents at `DbtrAgt` and `CdtrAgt`, the remittance at `RmtInf`, each absent exactly when its own path leads nowhere. |
| `Pacs008Roles.HeaderReads` | packages/iso_engine/pacs008/adapter.py:34-41 | Message id and creation time are the texts at `GrpHdr/MsgId` and `GrpHdr/CreDtTm`. |
| `TextLaws.TextMeans` | packages/iso_engine/pacs008/adapter.py:192-196 | The adapter reads exactly the text that stands within blanks in an element, and nothing of a blank or absent one. |
| `TextLaws.LinesMean` | packages/iso_engine/pacs008/adapter.py:125-146 | The lines of repeated elements, in document order: what the next one says is the next line, and one that says nothing adds none. |
| `XmlRepair.XmlDocument.Navigate` | packages/repair_engine/xml_reconstruction.py:69-85 | The walk with a moving node finds the element that the recursive meaning of the path names, or nothing. |
| `XmlRepair.XmlDocument.ReorderChildren` | packages/repair_engine/xml_reconstruction.py:119-124 | The children end in PostalAddress24 order, are a permutation of the old ones, keep their order within each rank and each name, and nothing else in the document changes. |
| `XmlRepair.XmlDocument.CreateMissing` | packages/repair_engine/xml_reconstruction.py:97-116 | A missing address component is created with its text under the parent the path names, and nothing changes when the source refuses to create it. |
| `XmlRepair.XmlDocument.ApplyOne` | packages/repair_engine/xml_reconstruction.py:55-66 | The addressed text is overwritten, or the missing leaf created, or the document is left alone and the change reported as failed; the document stays well formed. |
| `XmlRepair.XmlDocument.ApplyChanges` | packages/repair_engine/xml_reconstruction.py:31-48 | The changes are applied in order to a fresh copy with one outcome each; the original document is unchanged. |
| `XmlRepair.ChangeFrame` | packages/repair_engine/xml_reconstruction.py:55-124 | Any change keeps the root, every tag, every attribute, every other text and the order of same-name siblings; it succeeds exactly when the element exists or can be created; a parent that gains a leaf ends sorted, with the old children and the leaf. |
| `RepairFrame.ChangesFrame` | packages/repair_engine/xml_reconstruction.py:31-124 | Over any list of changes at any paths: every element of the original keeps its tag, its attributes, its parent and its order among its namesakes; its text is that of the last change whose path names it in the original, and its own when none does; a child list that gained an element ends sorted. |
| `XmlRepair.ChangesCommute` | packages/repair_engine/xml_reconstruction.py:35-48 | Changes proposed for different address fields give the same document in either order. |
| `RepairOrder.OrderDoesNotMatter` | packages/repair_engine/xml_reconstruction.py:31-48 | Changes of pairwise different address fields give the same document in every order, for lists of any length. |
| `RepairOrder.ProposedInAnyOrder` | packages/repair_engine/generator.py:60-86 | For every document and provider the proposed changes address pairwise different fields, so every permutation of them gives the same repaired document. |
| `XmlTree.AddLeafOrder` | packages/repair_engine/xml_reconstruction.py:109-124 | After an insertion the parent's children are in PostalAddress24 order and are a permutation of the old children and the new leaf. |
| `Sorting.SortKeepsOrder` | packages/repair_engine/xml_reconstruction.py:119-124 | Stability: elements that share a rank keep their order, so repeated address lines do. |
| `Sorting.SortedIsUnique` | packages/repair_engine/xml_reconstruction.py:121-124 | Ordered and stable determines the result: two sorted lists that agree on every rank class are equal. |
| `RepairFrame.ChangesLeaveOrder` | packages/repair_engine/xml_reconstruction.py:18-28 | After any list of changes a child list is the one it was, or its names stand in the order AdrTp, Dept, SubDept, StrtNm, BldgNb, PstCd, TwnNm, Ctry, AdrLine, all others last. |
| `RepairFrame.ChangesCreate` | packages/repair_engine/xml_reconstruction.py:97-116 | After any list of changes, whatever the document has beyond its original elements is a component of PostalAddress24 in the namespace of its parent, without attributes. |
| `RepairEngine.ProposeChanges` | packages/repair_engine/generator.py:32-86 | The change list holds, per transaction and address in order, exactly the country and town changes the provider's analysis calls for, with printed path, old and new value. |
| `RepairEngine.RepairIsLens` | packages/repair_engine/xml_reconstruction.py:31-116 | For every document and every provider, no proposed change is rejected and re-reading the repaired document gives the original message with exactly the proposed fields replaced. |
| `RepairMeaning.ProposedMeans` | packages/repair_engine/generator.py:60-86 | For every document and provider: a change is proposed for exactly the country and town fields of an address for which a value was resolved that the address does not have; it carries that value, the address's own one and the literal path of the field. |
| `RepairMeaning.ProposedInOrder` | packages/repair_engine/generator.py:32-86 | The change list goes through the transactions in order, in each through debtor, creditor, debtor agent and creditor agent, and in each first to the country and then to the town; no field is changed twice. |
| `RepairMeaning.RepairMeans` | packages/repair_engine/generator.py:60-122 | For every document and provider: in the repaired document each country and town reads as resolved, trimmed, where a value was resolved, and as before elsewhere; every other field of every transaction reads as before. |
| `Candidates.GenerateCandidate` | packages/repair_engine/generator.py:60-122 | For XML: the candidate's document reads as the repaired message, the input is unchanged, and the status is validated exactly when the schema accepts it and the rules raise nothing blocking (or there was nothing to change). |
| `MappedRepair.GenerateMappedCandidate` | packages/repair_engine/generator.py:124-135 | For mapped messages: the changes are reported, and review is required exactly when there are some and the rules block the unrepaired message. |
| `MappedRepair.MappedRepairIsIdle` | packages/repair_engine/generator.py:138-163 | For every validated definition, all records and every provider, applying the proposed changes leaves the mapped message as it was. |
| `MappedRepair.CountryLost` | packages/repair_engine/generator.py:124-163 | A message with one address line for which a country is proposed, and whose address has no country after the change was applied. |
| `Candidates.BlockingFindings` | packages/repair_engine/generator.py:166-169 | The early-return loop finds a blocking finding exactly when some finding is an error or critical. |
| `Candidates.RepairKeepsContentModel` | packages/repair_engine/xml_reconstruction.py:97-124 | Any element whose children follow the PostalAddress24 content model (names, order, occurrences) still does after the whole repair. |
| `Words.NormalizeIdempotent` | packages/address_engine/normalization.py:17-19 | Normalizing whitespace twice is normalizing it once. |
| `CloudNova.CuratedIsSound` | packages/payment_domain/countries.py:11-131 | In the curated tables every code is trimmed upper-case text and every country name stands for a code. |
| `CloudNova.ExtractCountryFromLines` | packages/address_engine/normalization.py:44-54 | The nested loops with early return find the country of the first line and token that names one. |
| `CloudNova.ExtractTownFromLines` | packages/address_engine/normalization.py:57-76 | The nested loops find the first token that stands before a country token and looks like a town. |
| `CloudNova.Analyze` | packages/address_engine/providers/cloudnova.py:29-115 | The provider resolves country and town as specified, and its level is HIGH (LOW) exactly when both (neither) resolved. |
| `CloudNova.ResolvedValues` | packages/address_engine/providers/cloudnova.py:29-105 | Whatever the address, a resolved country is a known code and a resolved town is non-empty trimmed text. |
| `AddressLaws.ProviderMeans` | packages/address_engine/providers/cloudnova.py:29-75 | For every address: the country is that of the field, as a code or else a name, or, only where the field is blank, that of the first token of the first line that stands for one; the town is that of the field, or, only where that is blank, the first token of 2 to 35 characters in upper case that stands before a country token. |
| `AddressLaws.ReadinessMeans` | packages/address_engine/readiness.py:17-31 | The four readiness levels, each by an if-and-only-if on the fields and on what the provider resolves. |
| `TextLaws.WordsMean` | packages/address_engine/normalization.py:17-19 | Splitting: a word before a blank or the end, after any blanks, is the first word of a text, and the rest is split likewise. |
| `CloudNova.SecondRound` | packages/repair_engine/generator.py:65-86 | After one round nothing more is proposed for an address exactly when its town was not read from a line with other than single inner blanks. |
| `CloudNova.FixpointAfterTwoRounds` | packages/repair_engine/generator.py:65-86 | After two rounds of analysis and repair nothing is proposed for any address. |
| `CloudNova.ReadinessAfterRepair` | packages/address_engine/readiness.py:17-31 | After one round an address is never REPAIRABLE, and READY exactly when both country and town were resolved. |
| `CloudNova.OnePassSuffices` | packages/repair_engine/generator.py:60-122 | For whole documents: a second pass proposes nothing exactly when no address takes its town from a line with gaps. |
| `CloudNova.TwoPassesSuffice` | packages/repair_engine/generator.py:60-122 | For whole documents: after two passes the change list is empty. |
| `RepairExample.SecondPassNeeded` | packages/address_engine/normalization.py:57-76 | Under the curated tables, a well-formed document for which the second pass still proposes a change. |
| `RepairExample.RejectedButValidated` | packages/repair_engine/generator.py:87-122 | A document that the schema rejects and the rules block, whose candidate is validated because nothing was proposed. |
| `Correlation.CorrelateProfiles` | packages/iso_engine/lifecycle/correlation.py:106-172 | The accumulating comparison computes the specified evidence, conflicts and status. |
| `Correlation.StatusMeans` | packages/iso_engine/lifecycle/correlation.py:106-172 | The four statuses, each by an if-and-only-if on which identifiers agree or differ. |
| `Correlation.StatusSymmetric` | packages/iso_engine/lifecycle/correlation.py:106-172 | The status does not depend on which profile comes first. |
| `AgreementLaws.ProfilesAgree` | packages/iso_engine/lifecycle/correlation.py:146-164 | Two profiles agree on an account that both have when it is the same without blanks, and on money when amount and currency are both given and both the same. |
| `AccountReconciliation.ReconcileAccountEntry` | packages/iso_engine/account/reconciliation.py:61-156 | The step-by-step comparison computes the specified evidence, conflicts, classification and score. |
| `AccountReconciliation.ReconciledMeans` | packages/iso_engine/account/reconciliation.py:61-238 | RECONCILED exactly when nothing disagrees, a UETR, transaction, end-to-end or instruction id agrees, and amount and currency agree. |
| `AccountReconciliation.ClassMeans` | packages/iso_engine/account/reconciliation.py:61-238 | Each class by an if-and-only-if on the inputs: a differing currency before a differing amount before a foreign account before a differing direction or identifier, and otherwise by whether an identifier and the money agree. |
| `AgreementLaws.IdentifiersMean` | packages/iso_engine/account/reconciliation.py:159-172 | Two identifiers agree, or differ, when both are given; blanks around them and case do not count. |
| `AgreementLaws.AccountsMean` | packages/iso_engine/account/reconciliation.py:175-178 | Two accounts agree when both are given and are the same without blanks and hyphens, in upper case. |
| `AgreementLaws.DirectionMeans` | packages/iso_engine/account/reconciliation.py:181-190 | A credit is expected on the creditor's account, a debit on the debtor's unless it is also the creditor's, and nothing on any other. |
| `AgreementLaws.CurrenciesMean` | packages/iso_engine/account/reconciliation.py:99-118 | Currencies are compared, in upper case, when both sides have one; the entry's own comes before that of its amount. |
| `AccountReconciliation.ScoreMeans` | packages/iso_engine/account/reconciliation.py:193-209 | The score is the share in 215 of the weights of what agrees, each named with its weight, to the nearest hundredth. |
| `AccountReconciliation.ScoreRange` | packages/iso_engine/account/reconciliation.py:120-209 | The score lies in 0 to 106.98; it exceeds 100 exactly when both accounts are the entry's, all five identifiers, amount and reference agree, and currency agrees or the entry is a credit; it is 106.98 exactly when both of the latter hold. |
| `AccountReconciliation.ScoreAbove100` | packages/iso_engine/account/reconciliation.py:120-131 | A concrete entry and context whose score is 106.98. |
| `AccountReconciliation.BareContextScore` | apps/api/paymentops_api/services/account_service.py:223-243 | With the context fields the service leaves empty, no score exceeds 55.81, and it is 55.81 exactly when transaction, end-to-end and instruction id, amount and currency agree. |
| `Ingestion.ProfileFromStatusReport` | packages/iso_engine/lifecycle/correlation.py:78-96 | One profile per status of the report, in order, with the original identifiers. |
| `IsoService.Service.AnalyzeIsoMessage` | apps/api/paymentops_api/services/iso_analysis_service.py:29-57 | From the fields of the message alone: under a new hash, each transaction of a payment in turn joins a lifecycle that shares one of its identifiers, kind for kind, or starts one with exactly its identifiers, amount and currency; each status of a report is recorded on such a lifecycle or nowhere. Keeps the invariants of lifecycles and accounts, changes no identifier of a stored lifecycle, does nothing under a known hash, and can end in an error only for an account message. |
| `IsoService.Service.CorrelateStatuses` | apps/api/paymentops_api/services/iso_analysis_service.py:140-170 | The pacs.002 branch records one event and one status per known parent, never creates a lifecycle, changes no identifier, and keeps the invariants. |
| `IsoService.Service.CorrelateAndBuildLifecycle` | apps/api/paymentops_api/services/iso_analysis_service.py:134-195 | The tables after correlating every profile: events, lifecycles and statuses; stored identifiers stay, a pacs.002 message adds no lifecycle, and the invariants are kept. |
| `IsoService.Service.IngestEntry` | apps/api/paymentops_api/services/account_service.py:122-165 | Adds exactly one entry row and keeps the invariants. A new identity is compared with a lifecycle exactly when one of the organization shares an identifier with the entry, and gets the class and the event that the two call for, and one reconciliation row that agrees; a known one is a duplicate when it repeats a report or its type, and otherwise a confirmation. An exception opens its case unless the id is held, and the operation ends in an error exactly when another organization held it. |
| `IsoService.Service.ReconcileAndPersist` | apps/api/paymentops_api/services/account_service.py:198-264 | One entry row and one reconciliation row that agree on lifecycle and classification, with a score of at most 55.81; RECONCILED exactly on a strong identifier, amount and currency with nothing that disagrees; no lifecycle means unmatched, without case or error. |
| `IsoService.Service.EnsureCase` | apps/api/paymentops_api/services/account_service.py:364-394 | Succeeds exactly when no other organization holds the id, and then the organization has the case; a refused or repeated call changes nothing, no id is held twice, and the invariants are kept or, after a stored exception, restored. |
| `IsoService.Service.IngestAccountReport` | apps/api/paymentops_api/services/account_service.py:52-71 | The tables after every report and entry of the message, in order, up to the entry whose case was refused, if any; the invariants are kept. |
| `IsoService.Service.DetectMissingAccountEvents` | apps/api/paymentops_api/services/account_service.py:400-444 | Exactly the accepted, old enough lifecycles without an entry are flagged, each has a case afterwards, no lifecycle changes, and the invariants are kept. |
| `MessageLaws.PaymentStep` | packages/iso_engine/lifecycle/correlation.py:55-75 | In every state that keeps the invariant: the next transaction of a payment joins a lifecycle of the organization that shares one of its identifiers, kind for kind, or starts one that carries exactly its identifiers, minor units and currency; it adds one event of the message's kind. |
| `MessageLaws.StatusStep` | packages/iso_engine/lifecycle/correlation.py:78-96 | In every state that keeps the invariant: the next status of a report finds a lifecycle exactly when one shares an original identifier, kind for kind, and records one event of the status's own type there, or nothing. |
| `MessageLaws.MessageMeans` | apps/api/paymentops_api/services/iso_analysis_service.py:134-195 | What a whole payment or report does to lifecycles and events, as its transactions or statuses taken in turn. |
| `MessageLaws.PaymentHasLifecycle` | apps/api/paymentops_api/services/iso_analysis_service.py:134-236 | Over every run: from the moment a payment is ingested under a new hash and after any later steps, each transaction with an identifier has a lifecycle that shares one, and each that found none has one that carries all it has. |
| `MessageLaws.StatusReachesPayment` | apps/api/paymentops_api/services/iso_analysis_service.py:134-236 | Over every run: a later status that carries no more than one identifier of such a payment finds a lifecycle with that identifier, and its status becomes the current one. |
| `MessageLaws.EntryReachesPayment` | apps/api/paymentops_api/services/account_service.py:122-304 | Over every run: a later account entry that carries no more than one identifier of such a payment is reconciled with a lifecycle with that identifier. |
| `MessageLaws.EntryStep` | apps/api/paymentops_api/services/account_service.py:122-264 | An entry of a new identity is compared with a lifecycle exactly when one of the organization shares an identifier; its row has the class that its fields and the lifecycle's call for, and a debit is recorded as a debit, anything else as a credit. |
| `MessageLaws.KnownStep` | apps/api/paymentops_api/services/account_service.py:130-165 | An entry of a known identity repeats the earlier one that is found when that came from the same report or a report of the same type, and otherwise confirms it, with its lifecycle and one event. |
| `MessageLaws.DetectionMeans` | apps/api/paymentops_api/services/account_service.py:400-444 | In every reachable state exactly those lifecycles are flagged whose latest report status is ACCEPTED, which were created before the cutoff, and of which no entry of the organization is known. |
| `LifecycleLaws.RunInv` | apps/api/paymentops_api/services/iso_analysis_service.py:134-308 | Over every run: lifecycles carry no original message id, UETR or account; the status is that of the latest pacs.002 event; identifiers never change after creation; rows are only added. |
| `LifecycleLaws.IngestInv` | apps/api/paymentops_api/services/iso_analysis_service.py:29-195 | Every message keeps that invariant, and pacs.002 and camt messages add no lifecycle. |
| `LifecycleLaws.StatusIsLatest` | apps/api/paymentops_api/services/iso_analysis_service.py:266-308 | In every reachable state `current_status` is the status of the latest pacs.002 event, UNKNOWN if there is none. |
| `LifecycleLaws.ReportWritesFirstStatus` | packages/analysis/pipeline.py:219-257 | A report writes the status of its first transaction (of the group when it lists none) to exactly the lifecycles its profiles find; all others keep theirs. |
| `LifecycleLaws.OwnStatusIff` | packages/analysis/pipeline.py:226-235 | The lifecycle found by the k-th status ends with that status exactly when it equals the first status of the report. |
| `IngestionExamples.RejectionLost` | packages/analysis/pipeline.py:226-235 | A payment of two transactions and a report that accepts the first and rejects the second: both lifecycles end ACCEPTED. |
| `LifecycleLaws.FoundIsRelated` | apps/api/paymentops_api/services/iso_analysis_service.py:217-263 | In every state that keeps the lifecycle invariant, a lifecycle found for a profile shares a transaction, end-to-end or instruction id with it, is never UNRESOLVED, and is CORRELATED exactly when transaction ids agree and no identifier conflicts. |
| `LifecycleLaws.SearchedStates` | apps/api/paymentops_api/services/iso_analysis_service.py:140-164 | The invariant holds wherever a message searches: after any number of its profiles, from any reachable state. |
| `LifecycleLaws.ReplayAddsAnonymousOnly` | apps/api/paymentops_api/services/iso_analysis_service.py:134-195 | Replaying a payment message under a new hash, after any steps in between, adds one lifecycle per transaction without any id and no other, and one event per transaction. |
| `LifecycleLaws.NoAnonymous` | packages/iso_engine/lifecycle/correlation.py:55-75 | A message has no such transaction exactly when each carries an id, so its replay adds none. |
| `IngestionExamples.NamelessReplay` | apps/api/paymentops_api/services/iso_analysis_service.py:140-195 | A payment without any identifier, received under two hashes, leaves two lifecycles. |
| `LifecycleLaws.SameHashChangesNothing` | apps/api/paymentops_api/services/iso_analysis_service.py:41-46 | A message that comes again under the same hash, after any steps in between, changes no table. |
| `AccountLaws.IdentityHasOneLifecycle` | apps/api/paymentops_api/services/account_service.py:122-264 | Over every run and every choice of existing row, entries of one organization with the same identity share one lifecycle. |
| `AccountLaws.IdentityHasOneReconciliation` | apps/api/paymentops_api/services/account_service.py:198-264 | Over every run, exactly one reconciliation row exists for the identity of each entry. |
| `AccountLaws.ReconciledIsGrounded` | apps/api/paymentops_api/services/account_service.py:122-264 | Every RECONCILED entry has strong-id, amount and currency evidence without conflict, or confirms an earlier entry of its identity from the other report type. |
| `AccountLaws.OneEntryAdds` | apps/api/paymentops_api/services/account_service.py:122-264 | What one entry adds: one row, at most one event and one case; one agreeing reconciliation row if its identity is new, and otherwise none and the lifecycle of the earlier entries; and when it ends in an error. |
| `AccountLaws.CaseIffFirst` | apps/api/paymentops_api/services/account_service.py:364-394 | In every reachable state the id of an exceptional entry is held by exactly one row, that of the organization of the first exception with its prefix; the entry's own organization has the case exactly when that was its own, exactly when no other one holds the id. |
| `AccountLaws.ExceptionsShareCases` | apps/api/paymentops_api/db/models/analysis.py:28 | In every reachable state two exceptional entries share one case exactly when their 16-character identity prefixes agree, also across organizations. |
| `AccountLaws.ExceptionClasses` | apps/api/paymentops_api/services/account_service.py:42-49 | Every class of an entry but three opens a case: RECONCILED, POSSIBLE_RECONCILIATION and an unmatched entry. |
| `AccountLaws.StopsAtFirstRefusal` | apps/api/paymentops_api/services/account_service.py:69-71 | A report's entries are all stored, or exactly those up to and including the first one whose case another organization held, which stays without a case. |
| `AccountLaws.DetectionIsNeverRefused` | apps/api/paymentops_api/services/account_service.py:425-441 | In every state that keeps the invariant, no case of a missing event is refused. |
| `IngestionExamples.TwoClassificationsOneCase` | apps/api/paymentops_api/services/account_service.py:364-394 | A statement that books a wrong amount twice: AMOUNT_MISMATCH and DUPLICATE_ACCOUNT_ENTRY share one case. |
| `IngestionExamples.TwoOrganizationsOneCase` | packages/payment_domain/models.py:556-572 | Two organizations receive the same payment and statement: the second one's exception is stored without a case, the rest of the statement is never stored, and sending it again changes nothing. |
| `AccountLaws.ScoresAndCases` | apps/api/paymentops_api/services/account_service.py:223-394 | Over every run, persisted scores lie in 0 to 55.81 and no case id is held twice. |
| `IngestionExamples.LargestScore` | apps/api/paymentops_api/services/account_service.py:223-243 | A lifecycle as the service stores it and an entry that is reconciled with it at 55.81. |
| `AccountLaws.DetectionIdempotent` | apps/api/paymentops_api/services/account_service.py:400-444 | In every state that keeps the invariant, detection flags exactly the accepted, old enough lifecycles without an account entry, each gets a case, and detecting again changes nothing. |
| `Matcher.EvaluatePair` | packages/matching_engine/matcher.py:311-359 | The loops over the fields compute the specified score, conflicts and class. |
| `Matcher.CriticalConflicts` | packages/matching_engine/matcher.py:380-403 | Exactly the mismatching critical fields, and the names below the similarity threshold, in order. |
| `Matcher.ComputeScore` | packages/matching_engine/matcher.py:406-417 | The accumulated quotient is the weighted mean over positively weighted, present fields, rounded to hundredths; 0 when there is none. |
| `Matcher.ScoreInRange` | packages/matching_engine/matcher.py:406-417 | For all records, policies and similarity functions the score lies in 0 to 100. |
| `Matcher.ScaleInvariant` | packages/matching_engine/matcher.py:406-417 | Multiplying all weights by the same positive factor changes no decision. |
| `Matcher.SwapInvariant` | packages/matching_engine/matcher.py:311-437 | Given a symmetric similarity, score, conflicts and class are the same after swapping the records. |
| `Matcher.CompareTwins` | packages/matching_engine/matcher.py:65-308 | Exactly how each field of a record compares with its twin: missing when absent, different only for a date under a negative tolerance, fully similar when exact. |
| `Matcher.TwinsScore100` | packages/matching_engine/matcher.py:311-437 | A record and its twin score 100 without conflict as soon as one positively weighted field is present. |
| `Matcher.CompatibleScores100` | packages/matching_engine/matcher.py:311-437 | Two records that agree wherever both carry data score 100 without conflict as soon as one positively weighted field is present in both. |
| `MatchDifferences.ComparisonMeans` | packages/matching_engine/matcher.py:65-283 | For all records and policies, each field's status from the records: missing unless both carry it, a mismatch exactly when the normalized texts differ (fuzzy ones by less than 85), the amounts lie outside the tolerance, or the dates outside the window. |
| `MatchDifferences.DecisionMeans` | packages/matching_engine/matcher.py:380-437 | For all records and policies: the conflicts are the critical fields that differ, and the names that are far apart; each class by an if-and-only-if on the score's place among the thresholds and the presence of a conflict. |
| `MatchDifferences.CriticalDifference` | packages/matching_engine/matcher.py:380-437 | A critical field that differs is among the conflicts, and the pair is never MATCHED or POSSIBLE_MATCH, whatever else agrees. |
| `MatchDifferences.ScoreMeans` | packages/matching_engine/matcher.py:406-417 | For all records and policies the score is what the fields earn, weight times likeness, over what the fields both records carry weigh, rounded. |
| `MatchDifferences.ScoreIsShare` | packages/matching_engine/matcher.py:406-417 | When the fuzzy fields agree, the score is the share of the weights that are not lost to a difference. |
| `MatchDifferences.FullShareIff` | packages/matching_engine/matcher.py:406-417 | A score of 100 means that the exact fields that differ weigh at most one part in 20000 of what both records carry, and is that exactly when the fuzzy fields agree. |
| `MatchDifferences.FullScoreAgrees` | packages/matching_engine/matcher.py:406-417 | A score of 100 means that every exact, amount or date field heavier than that agrees wherever both records carry it. |
| `MatchDifferences.FullScoreDespiteDifference` | packages/matching_engine/matcher.py:406-417 | Two records that differ in a weighted exact field and score 100, because rounding hides it. |
| `MatchDifferences.BaselineDifference` | packages/matching_engine/policy.py:17-67 | Under the default policy, two records that agree on end-to-end id and currency but not on the transaction id score 53.85, conflict, and are for review. |
| `MatchDifferences.SimilarityMeans` | packages/matching_engine/matcher.py:38-56 | Similarity is the library's between 0 and 100; the first 512 characters count, an unknown algorithm counts as token_sort_ratio, and an empty text is like nothing. |
| `Narrowing.NarrowingCriteria` | packages/matching_engine/candidates.py:23-72 | The criteria built step by step are those specified: currency, amount window, date window, reference prefix, account. |
| `Narrowing.CandidateMatches` | apps/api/paymentops_api/services/matching_service.py:501-530 | The early returns accept a candidate exactly when it fits every criterion. |
| `Narrowing.FilterCandidates` | apps/api/paymentops_api/services/matching_service.py:487-498 | The first candidates, up to the limit, that pass and are not the record itself. |
| `NarrowingLaws.PassesMeans` | apps/api/paymentops_api/services/matching_service.py:501-530 | For any two records and any policy, a candidate passes exactly when currencies agree or one is missing, amounts lie within the percentage (20 by default) of the source's, dates of one kind lie within seven days or one side has none, references begin with the same eight characters, and accounts read the same. |
| `NarrowingLaws.NarrowedMeans` | apps/api/paymentops_api/services/matching_service.py:487-498 | Narrowing keeps, in order, the first twenty candidates that are other records than the source and meet these five demands. |
| `Narrowing.TwinSurvives` | packages/matching_engine/candidates.py:45-52 | A twin passes exactly when its amount and the tolerance do not have opposite signs (or there is no amount). |
| `Narrowing.CompatiblePasses` | apps/api/paymentops_api/services/matching_service.py:501-530 | The exact condition under which a candidate that agrees wherever both records carry data passes: amount signs, a common kind of date, the reference and the account each from a common field or equal across fields. |
| `Narrowing.LacksReferenceAndAccount` | packages/matching_engine/candidates.py:33-72 | A twin without references and accounts passes exactly when the signs agree and the source's reference prefix and account key are empty. |
| `Narrowing.LacksRemittance` | apps/api/paymentops_api/services/matching_service.py:519-524 | A twin without the remittance reference passes exactly when the signs agree and the source asks for no reference or its external reference has the same prefix. |
| `Narrowing.LacksDebtorAccount` | apps/api/paymentops_api/services/matching_service.py:525-529 | A twin without the debtor account passes exactly when the signs agree and the creditor account has the source's account key. |
| `Narrowing.SourceLacksRemittance` | apps/api/paymentops_api/services/matching_service.py:519-524 | Where the source lacks the remittance reference its twin has, the twin passes exactly when the signs agree and the source asks for no reference or the twin's remittance reference has the prefix of the source's external one. |
| `Narrowing.SourceLacksDebtorAccount` | apps/api/paymentops_api/services/matching_service.py:525-529 | Where the source lacks the debtor account its twin has, the twin passes exactly when the signs agree and the source has no account or its creditor account is the twin's debtor account. |
| `Narrowing.DroppedOnMissingReference` | packages/matching_engine/candidates.py:33-34 | A candidate that lacks only the remittance reference, scores 100 without conflict, and is dropped. |
| `Narrowing.DroppedOnSourceReference` | packages/matching_engine/candidates.py:63-66 | The source lacks only the remittance reference, the external ones are equal, and a candidate that scores 100 is dropped. |
| `Narrowing.DroppedOnSourceAccount` | packages/matching_engine/candidates.py:68-70 | The source lacks only the debtor account, the creditor accounts are equal, and a candidate that scores 100 is dropped. |
| `Narrowing.DroppedOnDisjointDates` | apps/api/paymentops_api/services/matching_service.py:507-518 | The source has only a booking date, the candidate only a value date on the same day, and it is dropped at a score of 100. |
| `Narrowing.NegativeAmountMatchesNothing` | packages/matching_engine/candidates.py:45-52 | A negative amount under a positive tolerance excludes every candidate that has an amount. |
| `Narrowing.SurvivorAmountAgrees` | packages/matching_engine/matcher.py:110-171 | With a positive configured tolerance and a non-negative amount, no survivor of narrowing has an amount mismatch. |
| `MatchRuns.MatchRun.Execute` | apps/api/paymentops_api/services/matching_service.py:394-484 | The run's counters, claims and rows are those of processing every source in order; it is COMPLETED exactly when nothing failed. |
| `MatchRuns.MatchRun.ProcessSource` | apps/api/paymentops_api/services/matching_service.py:423-468 | One source: narrowed, evaluated, ranked, classified against the claims, counted and persisted, with either fault. |
| `MatchRuns.RowsJustified` | apps/api/paymentops_api/services/matching_service.py:423-468 | Over every run, a MATCHED row's candidate is the only MATCHED one among the source's narrowed candidates, has the top score and no critical conflict. |
| `MatchOutcomes.SourceBecomes` | apps/api/paymentops_api/services/matching_service.py:423-468 | For every source and state of a run: without a narrowed candidate, or when the first with the top score is unmatched, it is counted unmatched; otherwise it gets that candidate, as a duplicate when two are MATCHED, for review when another source claims it, and with its own class otherwise; the counter of that class grows, and only MATCHED and POSSIBLE_MATCH claim. |
| `MatchOutcomes.SoleMatchIsTaken` | apps/api/paymentops_api/services/matching_service.py:423-468 | A source whose best candidate is the only MATCHED one and is claimed by no other source ends MATCHED with it and claims it. |
| `MatchRuns.ClaimKeepsOwner` | apps/api/paymentops_api/services/matching_service.py:418-457 | No step changes the owner of a claim. |
| `MatchRuns.OneToOne` | apps/api/paymentops_api/services/matching_service.py:418-468 | Over every run, no candidate stands in MATCHED or POSSIBLE_MATCH rows of two different sources. |
| `MatchRuns.CountersPartition` | apps/api/paymentops_api/services/matching_service.py:408-480 | Over every run the counters sum to the sources plus those whose persisting failed, and the rows are the assigned sources without them. |
| `MatchRuns.CountedTwice` | apps/api/paymentops_api/services/matching_service.py:447-468 | A run of one source whose row cannot be persisted: the counters sum to two. |
| `MatchRuns.TwinIsFound` | apps/api/paymentops_api/services/matching_service.py:423-530 | A source with a twin among at most 20 passing candidates is never counted unmatched and gets a row with score 100. |
| `Mapper.TransactionRow.Set` | packages/mapping_engine/mapper.py:115-208 | On a transaction that holds exactly some mapped values, setting a new allowed target adds exactly its value: the target reads back as the converted value and every value mapped before reads as before. |
| `Mapper.MapRecord` | packages/mapping_engine/mapper.py:42-66 | The loop over the fields builds the mapped transaction and the list of missing required targets, whose meaning in terms of the record is RecordLaws.MappedFromRecord and RecordLaws.MissingIff. |
| `Mapper.MapRecords` | packages/mapping_engine/mapper.py:36-70 | One transaction per record, in order, with its own path prefix. |
| `RecordLaws.MappedFromRecord` | packages/mapping_engine/mapper.py:36-104 | For every validated definition and all records: a target reads the record's own value (the first member of that name, or the first value a `$` path denotes) after the transforms, first to last, whatever the default; the default, transformed likewise, only where the record has none and the field is not required; and otherwise the transaction is the one mapped without the field. |
| `RecordLaws.MissingIff` | packages/mapping_engine/mapper.py:45-56 | The targets listed as missing are exactly those of required fields whose value the record lacks or has empty. |
| `Mapper.ApplyTransforms` | packages/mapping_engine/mapper.py:101-104 | The transforms are composed left to right. |
| `Mapping.ResolveFieldByPath` | packages/rules_engine/declarative.py:138-152 | The walk with a reassigned node follows the path's segments one attribute at a time. |
| `MappingLaws.WriteTarget` | packages/mapping_engine/mapper.py:115-208 | For every allowed target, setting it adds exactly that value to what the transaction holds and touches nothing else. |
| `MappingLaws.MapIsTxOf` | packages/mapping_engine/mapper.py:42-63 | The transaction mapped by a valid definition holds exactly the values of its fields: none is dropped, none is invented. |
| `MappingLaws.MappedIsReadBack` | packages/rules_engine/declarative.py:138-152 | A rule path equal to a mapped target returns exactly the converted value that was mapped. |
| `MappingLaws.OrderIsIrrelevant` | packages/mapping_engine/mapper.py:42-63 | Permuting the fields of a valid definition changes no mapped transaction. |
| `MappingLaws.ReorderedValid` | packages/mapping_engine/validator.py:53-114 | Any permutation of valid fields is valid. |
| `MappingLaws.ValidateMapping` | packages/mapping_engine/validator.py:53-114 | No error is reported exactly when the definition has fields and a usable selector, every source is given, every target is allowed and named once, and every transform is supported. |
| `MappingLaws.EveryTargetAllowed` | packages/mapping_engine/validator.py:11-41 | The typed targets of the model are allowed by the names the validator lists. |
| `Selectors.Tokenize` | packages/mapping_engine/selectors.py:70-81 | The appending scan yields the tokens of the path's leftmost matches. |
| `Selectors.TokensOfPrint` | packages/mapping_engine/selectors.py:70-81 | Tokenizing a printed path gives back its tokens, for every token list with keys over the key alphabet. |
| `Selectors.TokensJoin` | packages/mapping_engine/selectors.py:70-81 | For any two texts whatever, the tokens of `p.q` are those of `p` followed by those of `q`. |
| `Selectors.ResolveJsonPath` | packages/mapping_engine/selectors.py:15-37 | The lists rebuilt token by token are the values the path denotes. |
| `Selectors.ResolveJoin` | packages/mapping_engine/selectors.py:15-37 | Resolving a joined path resolves the suffix on each value of the prefix, in order. |
| `SelectorLaws.NameMeans` | packages/mapping_engine/selectors.py:15-37 | A name resolves to the value of the first member of that name, and to nothing for a value that has none. |
| `SelectorLaws.IndexMeans` | packages/mapping_engine/selectors.py:15-37 | `[k]` resolves to the item at that place of an array, counted from zero, and to nothing for any other value. |
| `SelectorLaws.WildcardMeans` | packages/mapping_engine/selectors.py:15-37 | `[*]` resolves to every item of an array, or the value of every member of an object, in order. |
| `Selectors.ResolveAtMostOne` | packages/mapping_engine/selectors.py:15-37 | A path text without `*` yields at most one value, whatever the data. |
| `DeletionOrder.DeletionOrder` | apps/api/scripts/reset_demo.py:53-69 | The loop terminates and lists the tables round by round, each round alphabetically, a cycle at once. |
| `DeletionOrder.EachTableOnce` | apps/api/scripts/reset_demo.py:53-69 | Each table is listed exactly once and nothing else is. |
| `DeletionOrder.AcyclicHasSink` | apps/api/scripts/reset_demo.py:60-65 | A finite non-empty set of tables without a cycle has one that no other references. |
| `DeletionOrder.ChildrenFirstIffAcyclic` | apps/api/scripts/reset_demo.py:53-69 | Every child comes before its parent exactly when the reference graph is acyclic. |
| `DeletionOrder.SafeIffAcyclic` | apps/api/scripts/reset_demo.py:53-69 | In terms of the given foreign keys: the order is safe exactly when they form no cycle, self references ignored. |
| `DeletionOrder.TwoTableCycle` | apps/api/scripts/reset_demo.py:66-68 | Two tables that reference each other: the order that is returned is not safe. |
| `DeletionOrder.RoundsAreLayers` | apps/api/scripts/reset_demo.py:60-69 | Round k holds exactly the tables whose longest child chain has length k; a cycle and what it blocks come last. |
| `FailureLimiter.LockoutLaw` | apps/api/paymentops_api/services/user_service.py:98-103 | The counter counts modulo the threshold and each wrap-around costs one cooldown. |
| `UserService.Service.CreateUser` | apps/api/paymentops_api/services/user_service.py:50-71 | A new user under the normalized address, with a clear counter; the unique keys, session lifetimes and counter bounds are kept. |
| `UserService.Service.Authenticate` | apps/api/paymentops_api/services/user_service.py:79-107 | The answer and the rows it leaves, by the stored rows: a login, and nothing else, where the user with the normalized address is not locked, the password verifies and the user is active; a wrong password where it does not verify, which counts and at the fifth time locks; the counter stays below five and no session is reopened or extended. |
| `UserService.AuthenticationMeans` | apps/api/paymentops_api/services/user_service.py:79-107 | In every reachable state: each of the five outcomes by an if-and-only-if on the one user with the normalized address, its lock, `verify` of the password and its status, and what each leaves behind. |
| `UserService.Service.ResolveSession` | apps/api/paymentops_api/services/user_service.py:126-142 | The user of a live session and the refreshed row, or nothing; no session is reopened, extended or handed over. |
| `UserService.Service.RevokeAllSessions` | apps/api/paymentops_api/services/user_service.py:155-165 | Every open session of the user is revoked, no other row changes, and the count is how many were open. |
| `UserService.Service.SetPassword` | apps/api/paymentops_api/services/user_service.py:180-186 | The new hash, a cleared counter and lock, and all sessions of the user revoked. |
| `UserService.Service.SetStatus` | apps/api/paymentops_api/services/user_service.py:189-193 | The new status, with all sessions of a disabled user revoked. |
| `UserService.CounterInRange` | apps/api/paymentops_api/services/user_service.py:98-103 | In every reachable state the failure counter is below five. |
| `UserService.FailedChecksTakeTime` | apps/api/paymentops_api/services/user_service.py:85-107 | From any reachable state, N failed checks of one user with no success or reset between them span at least 15 minutes per completed group of five, counting those already on the counter. |
| `UserService.ResolvesWhen` | apps/api/paymentops_api/services/user_service.py:126-142 | In every reachable state a token resolves to a user exactly when its session is unrevoked, under eight hours old and owned by that user, who is active. |
| `UserService.EndedForGood` | apps/api/paymentops_api/services/user_service.py:145-193 | A session ended by logout, by a new password or by disabling its user never resolves again, after any later steps. |
| `CircuitBreaker.Provider.Analyze` | packages/address_engine/providers/swift_derived.py:79-101 | Outcome and breaker state of one call: unconfigured, open, without lines, answered, failed, or escaped. |
| `CircuitBreaker.CallMeans` | packages/address_engine/providers/swift_derived.py:67-101 | Each outcome of a call by an if-and-only-if on endpoint, breaker, lines and reply, and the count and lock that it leaves. |
| `CircuitBreaker.Provider.Post` | packages/address_engine/providers/swift_derived.py:103-116 | The retry loop returns the first reply that is not a transport error, within the attempt limit. |
| `CircuitBreaker.RetriesTransportErrorsOnly` | packages/address_engine/providers/swift_derived.py:103-116 | Every attempt but the last one made ended in a transport error. |
| `CircuitBreaker.FailingCallsTakeTime` | packages/address_engine/providers/swift_derived.py:67-101 | From any reachable state, failing calls without a success between them span at least one cooldown per completed threshold group. |
| `BatchService.AggregateIsWorst` | packages/analysis/pipeline.py:368-377 | The aggregate of a non-empty list is the worst level in it. |
| `BatchService.OutcomesPartition` | apps/api/paymentops_api/services/batch_service.py:102-137 | The four readiness counts and the failures add up to the number of records. |
| `BatchService.NoFailures` | apps/api/paymentops_api/services/batch_service.py:102-137 | The failure count is zero exactly when no record raised. |
| `BatchService.Job.ProcessRows` | apps/api/paymentops_api/services/batch_service.py:102-130 | The in-memory counters are the tallies of the rows, and every row committed on the way holds exactly the counts of the records processed by then. |
| `BatchService.Job.Process` | apps/api/paymentops_api/services/batch_service.py:77-156 | A finished job is left alone; an oversized input fails it; otherwise every committed snapshot tallies the records processed by then, the final row tallies all of them, and it is COMPLETED exactly when there was no failure. |

## Left out

- lxml parsing, serialization, tail text and XSD validation: documents are trees, and the schema check is an arbitrary predicate.
- RepairEngine.RepairIsLens: the adapter's decimal conversion of amounts and its date parsing are not modelled; the amount's text and currency and the creation time's text are compared instead, and conversion reads nothing else.
- XmlRepair.XmlDocument.Navigate: path indexes are ASCII digit strings; other texts that `int()` would accept or reject with an exception are outside its precondition, and no printed path contains them.
- XmlRepair.XmlDocument.ApplyChanges: the tree is an immutable value, so the difference between a deep and a shallow copy is not modelled.
- Candidates.GenerateCandidate: XML sources only; the branch for mapped messages is MappedRepair.GenerateMappedCandidate. Repair of pain.001 and pacs.009 documents, whose printed paths carry no transaction index.
- MappedRepair.MappedRepairIsIdle: `int()` of a stripped step is an arbitrary partial function that rejects the two party labels.
- CloudNova.CuratedIsSound: NFKC, upper-casing and `isupper` are arbitrary functions; the only assumption is that upper-casing leaves two-capital codes alone.
- CloudNova.Analyze: the evidence texts, notes and normalized fields of an analysis are not modelled, only its values, readiness and level.
- IsoService.Service.AnalyzeIsoMessage: message hashes are inputs, and the lifecycle id and correlation status in the returned result are left out; so are timestamps other than a lifecycle's creation, event reasons and evidence, audit events and the correlation status of account messages.
- IsoService.Service.CorrelateStatuses: of the result it fills, only the correlation status is returned; evidence, conflicts and lifecycle id follow from Correlation.CorrelateProfiles on the lifecycle found.
- IsoService.Service.CorrelateAndBuildLifecycle: the correlation result it writes for the caller is left out; the tables are complete.
- IsoService.Service.IngestAccountReport: balances and the returned report rows are left out.
- AccountLaws.CaseIffFirst: cases that other services open under generated ids are not in the table, and the lengths of columns, which the database also enforces, are not modelled.
- Matcher.EvaluatePair: the explanation codes and the details of a field's result that neither score nor class reads are left out.
- Matcher.ComputeScore: scores are exact reals rounded half to even in hundredths; binary floating point is not modelled. The same holds for reconciliation scores.
- The matcher's text normalizers (names, company suffixes, references, IBANs) are one arbitrary normalization per field; RapidFuzz is an arbitrary similarity, clamped as the code clamps it.
- Narrowing.NarrowingCriteria: the default limits (20 candidates, 7 days, 20 percent) are used, as every caller in a run does; organization and record type, which only select the stored records, are left out.
- Narrowing.CompatiblePasses: assumes that NFKC keeps the empty text empty and that upper-casing yields the empty text from no other.
- Policy and match-record storage, candidate search over the API, and manual decisions on candidates.
- MappingLaws.ValidateMapping: its warnings, the message texts and the order of its errors are not modelled, only which definitions have none.
- Mapper.MapRecords: XPath records are not modelled, and amounts that raise in conversion are not; records are JSON values.
- Mapping.ResolveFieldByPath: reaches the attributes the mapper can write and the source path of an address; other attributes of the canonical model read as absent.
- Mapper.MapRecord: picking the records out of a payload, by its format and record selector, is not part of the model.
- Rule operators and the composite rule engine, which read the resolved field one branch at a time.
- Selectors.Tokenize: digits in an index are ASCII digits.
- Loading the foreign-key graph and the deletes themselves; the order alone is modelled.
- Password hashing, token generation and roles; times are integer minutes, and a user or token is created with the value that was generated.
- BatchService.Job.Process: the report of most frequent rules, CSV parsing and Redis; analyzing one record either yields readiness levels or raises.
- The canonical transaction appears in three shapes (Pacs008, Mapping, Ingestion), each with the fields its component reads; no translation between them is modelled.
- Concurrent requests: each service call is one atomic step. HTTP routes, workers, migrations, logging and the web interface.
