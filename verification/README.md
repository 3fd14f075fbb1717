# AI Exchange: durable protocols, verified

AI Exchange reads a mailbox, routes each email, asks people in a chat for approval, and
reports once a day. What makes it safe to stop and restart at any point is a handful of
durable protocols: who owns an account's mailbox, which stored object an email's content
reference names, which remote files still need cleaning up, which parts of a daily digest
were sent. This project models those protocols and proves what every run of them keeps.
Beside them it covers the pure and looping code that the protocols lean on: canonical JSON
behind the dedupe key, UTF-8 truncation, message packing, vote counting, dotenv files, and
the history import.

Verify everything with `dafny verify dfyconfig.toml`.

## How the model is laid out

| files | what they model |
|---|---|
| `OwnershipLedger`, `OwnershipTransactions`, `OwnershipRuns`, `PipelineOwnership` | one account's generations and audit trail; transactions with per-account locks; all runs; the repository and transaction classes, each method proved to take one step of the run model |
| `ContentClaim` | any number of workers claiming one content reference by put, compare-and-set, read-back and delete, with arbitrary answers and cancellation |
| `EmailFeishuDelivery`, `ExchangeRun` | classes for the delivery of one card, with faults at every call, and for the run that reports it |
| `DigestRender`, `DigestMessages` | safe text, greedy packing, headers, the byte-bounded bundle |
| `DigestCalendar` | the local calendar of a window's two ends, and that labels and headers name their window |
| `DigestExecutions`, `DigestTables`, `DigestLog`, `DigestRuns`, `DailyDigest` | windows; one stored execution; all stored executions; histories; all runs of one scheduler with stops anywhere; the repository and scheduler classes, whose loop is proved to be such a run and to end |
| `DigestConcurrency`, `DigestReporting` | any number of schedulers: calls on one stored execution, and statements on the table, interleaved in any order |
| `EmailEvents` | the decision for each email event, folded over runs with worker steps |
| `CanonicalJson`, `PlainJson`, `DedupeKey` | canonical JSON text, the copy with cycle detection, the dedupe key |
| `HistoricalConsensus`, `HistoricalEvidence` | the vote over historical decisions; the emails and actions that a decision lists |
| `Wrappers`, `Sequences`, `PythonText`, `Utf8`, `StateFactory` | options; lists; string behaviour relied on; UTF-8; byte caps |
| `DotEnv`, `DeploymentConfiguration`, `DeploymentScheme` | reading and printing dotenv files; what configuring does to the two files, stopped anywhere or not; this deployment's tables |
| `HistoryImport` | the paging loop and the batching loop |

Reading choices that matter:

- SHA-256 and UUIDv5 are injective: a digest is represented by what it digests.
- An advisory lock lasts to the end of its transaction, so an open transaction has a private
  view of each account it locked; a commit publishes all views, a rollback none.
- A put returns a fresh reference. A compare-and-set that raised has either taken effect
  already or never will.
- A checkpoint read raises, yields no state, or yields the true state. A checkpoint write may
  land or not, whatever it reports. Any awaited call may be cancelled.
- Instants are whole microseconds; Asia/Shanghai is UTC+8 throughout.
- A float in a JSON value is represented by its `repr`, which names one float and always has a
  point or an exponent.
- The scheduler's runs are those of one scheduler. With several, two calls can reopen a part
  that nothing is known about: `reconcile_parts` reopens every part in flight, also one its
  answer was never asked about (`TwoSchedulersResendEarly`), and a rejection that comes late
  reopens a later attempt, because a request is named by its part and not by its attempt
  (`LateRejectionResendsEarly`). `DigestConcurrency` numbers the attempts, which the code does
  not, and settles what remains over any interleaving of any number of schedulers. Parts are
  claimed in order and a confirmed part is never claimed again (`OrderNeedsNoGuard`). Every claim
  that could come at any point is spaced exactly when every call before it is justified
  (`SpacedExactlyWhenJustified`): a rejection that reopens a part is of the attempt in flight,
  and a search that reopens one asked about that attempt, overdue when it began. Under the row
  lock both calls could test this, if claims and searches carried the number.
- The reporting of missed windows, too, is that of one scheduler: a digest stored late, after
  others have drawn up a later one, is marked reported by a text that does not list it
  (`LateStoreMarksUnlisted`). `DigestReporting` gives the exact condition: every digest is
  stored in time (`MarksListedExactlyInTime`).
- A handoff's commit is where an account can lose its ingress:
  `StrandedExactlyByHalfHandoff` says of every run exactly when it does.

Where code and prose differ, the model follows the code: the import's docstring says that
`limit=0` fetches everything, the code stops at 999,999 emails (`FetchExchangeEmails`); blank
separator lines of a split digest are sent as the placeholder text (`Normalised`); the first
rewrite of a user's dotenv file drops white space at the end of the last value (`Kept`); and
the reader's test for upper-case keys also passes the Kelvin sign and the capital sharp s
(`IsKey`).

## Model

| member | source | states |
|---|---|---|
| OwnershipLedger.AdvancedKeepsInv | src/ingestion/ownership.py:582-633 | moving one generation to its next state keeps dense numbering, the single active generation and the match with the audit trail, and adds exactly one event |
| OwnershipLedger.AppendedKeepsInv | src/ingestion/ownership.py:356-427 | adding a generation when none is active keeps the same, with one event |
| OwnershipLedger.BootstrapStep | src/ingestion/ownership.py:356-427 | a bootstrap commits one whole transition or nothing, and nothing at all once the account has rows |
| OwnershipLedger.QuiesceStep | src/ingestion/ownership.py:548-637 | a quiesce commits one whole transition or nothing, a replay included |
| OwnershipLedger.RetireStep | src/ingestion/ownership.py:639-756 | a retirement needs evidence and no unresolved work, and never changes which generation is active |
| OwnershipLedger.MarkDrainingStep | src/ingestion/ownership.py:853-905 | a drain that succeeds leaves no active generation where there was one; one that fails changes nothing |
| OwnershipLedger.InsertCurrentStep | src/ingestion/ownership.py:907-1021 | with no active generation, an insert adds the densely next one or nothing |
| OwnershipLedger.FenceMeansRow | src/ingestion/ownership.py:503-533 | a stamp is accepted exactly when it names an existing generation with its own token that is not retired |
| OwnershipLedger.RefusedStaysRefused | src/ingestion/ownership.py:503-533 | along a ledger's history a stamp refused after being accepted is refused later too |
| OwnershipTransactions.StepOk | src/ingestion/ownership.py:765-1021 | every repository call, transaction step, commit, rollback or error keeps every account's invariant, and committed ledgers only move forward |
| OwnershipTransactions.RunOk | src/ingestion/ownership.py:221-1021 | the same for any sequence of events over any number of transactions and handoff objects |
| OwnershipRuns.SingleIngress | src/ingestion/ownership.py:356-637 | in every state of every run an account's generations are exactly 1..n with token equal to generation, and at most one is current or quiescing |
| OwnershipRuns.AuditRebuildsOwnership | src/ingestion/ownership.py:303-354 | replaying the audit trail rebuilds the ownership rows, with one event for each committed transition and none for a replayed call |
| OwnershipRuns.FenceNeverReopens | src/ingestion/ownership.py:503-533 | at any three later and later points of a run, a stamp accepted and then refused stays refused |
| OwnershipRuns.DefaultGuardRetiresNothing | src/ingestion/ownership.py:112-118 | under the default guard no run ever retires a generation |
| OwnershipRuns.DefaultGuardKeepsFences | src/ingestion/ownership.py:112-118 | under the default guard an accepted stamp stays accepted |
| OwnershipRuns.HandoffMovesIngress | src/ingestion/ownership.py:812-1021 | lock, drain, insert and commit in one transaction make the next generation current and its predecessor draining, and nothing shows before the commit |
| OwnershipRuns.CommitStrands | src/ingestion/ownership.py:853-1021 | committing a transaction that sees an account's generations with none active leaves the account without ingress and nothing pending on it |
| OwnershipRuns.StrandedExactlyByHalfHandoff | src/ingestion/ownership.py:765-1021 | in every run, a commit takes an active account's ingress away exactly when one of the transaction's handoffs has drained the account and not inserted |
| OwnershipRuns.StrandedForever | src/ingestion/ownership.py:356-1021 | an account with no ingress and no pending handoff gets none, and no generation, in every continuation of the run |
| OwnershipRuns.HalfHandoffStrands | src/ingestion/ownership.py:812-905 | lock, drain and commit without the insert leave the account without ingress, then and in every continuation |
| PipelineOwnership.PipelineOwnershipRepository.Bootstrap | src/ingestion/ownership.py:356-427 | the method takes exactly the bootstrap step of the run model |
| PipelineOwnership.PipelineOwnershipRepository.Quiesce | src/ingestion/ownership.py:548-637 | the method takes exactly the quiesce step of the run model |
| PipelineOwnership.PipelineOwnershipRepository.Retire | src/ingestion/ownership.py:639-756 | the method takes exactly the retire step of the run model |
| PipelineOwnership.PipelineOwnershipRepository.AssertFence | src/ingestion/ownership.py:503-533 | returns the named generation exactly when the stamp is accepted |
| PipelineOwnership.PipelineOwnershipTransaction.LockQuiesced | src/ingestion/ownership.py:812-851 | fields, locks and outcome after the call are those of the lock step |
| PipelineOwnership.PipelineOwnershipTransaction.MarkDraining | src/ingestion/ownership.py:853-905 | fields, locks, rows and outcome after the call are those of the drain step |
| PipelineOwnership.PipelineOwnershipTransaction.InsertCurrent | src/ingestion/ownership.py:907-1021 | fields, locks, rows and outcome after the call are those of the insert step |
| ContentClaim.StepOk | src/exchange_service.py:1043-1245 | any one call of any worker, however it ends, keeps the protocol's invariant, a set reference and the object it names |
| ContentClaim.ClaimIsStable | src/exchange_service.py:1043-1245 | with any number of workers a set reference never changes, its object is never deleted, and whatever a worker returned is the stored reference then and later |
| ContentClaim.AtMostOneWinner | src/exchange_service.py:1085-1245 | at most one worker learns that its compare-and-set won |
| ContentClaim.SurvivingLosers | src/exchange_service.py:1085-1245 | in unguarded mode a finished worker's losing candidate is still stored only if its outcome was never learned or its delete failed |
| ContentClaim.DeletesOnlyLosers | src/exchange_service.py:1004-1041 | a candidate is deleted only by a worker that knows it lost |
| EmailFeishuDelivery.EmailFeishuDelivery.RetainCleanupToken | src/email_feishu_delivery.py:807-845 | true means the handle is recorded; the list only grows by that handle and never past its cap; only a cancellation escapes |
| EmailFeishuDelivery.EmailFeishuDelivery.RemoveCleanupToken | src/email_feishu_delivery.py:847-874 | forgets a handle whose delete returned true, and no other |
| EmailFeishuDelivery.EmailFeishuDelivery.DeleteFile | src/email_feishu_delivery.py:896-905 | the remote delete; callers must have the handle recorded for cleanup |
| EmailFeishuDelivery.EmailFeishuDelivery.DeleteOrRetainToken | src/email_feishu_delivery.py:876-915 | false means nothing was deleted; true means the handle was recorded and is deleted or still tracked; other recorded handles stay |
| EmailFeishuDelivery.EmailFeishuDelivery.RetireUnpublishedPdf | src/email_feishu_delivery.py:917-949 | true means the PDF's handle was recorded before its delete; only this PDF can stop being active |
| EmailFeishuDelivery.EmailFeishuDelivery.DeleteReplacedPdf | src/email_feishu_delivery.py:951-967 | the new PDF is never the one deleted and stays active |
| EmailFeishuDelivery.EmailFeishuDelivery.StageReviewPdf | src/email_feishu_delivery.py:538-726 | a ready stage means the new PDF is active and its predecessor recorded; errors that claim cleanup mean the new handle is tracked or deleted |
| EmailFeishuDelivery.EmailFeishuDelivery.UploadBusinessAttachments | src/email_feishu_delivery.py:728-805 | a normal return means every handle an upload returned was recorded |
| EmailFeishuDelivery.EmailFeishuDelivery.RecordKnownFailure | src/email_feishu_delivery.py:475-508 | a normal guarded return means the PDF and every attachment is tracked or deleted |
| EmailFeishuDelivery.EmailFeishuDelivery.Publish | src/email_feishu_delivery.py:251-341 | exactly one card is sent and the disposition is what its answer was; after an accepted or unknown card the PDF it shows is the active one and no delete of it was attempted since the card, and no fault reads as a failure |
| EmailFeishuDelivery.EmailFeishuDelivery.Deliver | src/email_feishu_delivery.py:182-341 | over a whole delivery with faults at every call: handles stay tracked until deleted, the list keeps its cap, at most one card is sent, an accepted or unknown card is never a known failure, and its PDF is the active one, with no delete of it attempted since the card |
| ExchangeRun.ExchangeService.DeliverPipelineResult | src/exchange_service.py:681-810 | no outcome means the no-action route and no card; otherwise the card kind follows the route; the PDF of an accepted or unknown card stays shown |
| ExchangeRun.ExchangeService.MarkEmailRead | src/exchange_service.py:813-845 | asks at most once and swallows everything but a cancellation when unguarded |
| ExchangeRun.ExchangeService.RunAiPath | src/exchange_service.py:1531-1618 | the sender is called at most once and the PDF of an accepted or unknown card stays shown; read marks only follow no-action or a confirmed approval or read-only card; a guarded normal return completes the handoff unless it reports failure, which leaves it alone |
| DigestRender.SafeTextFits | src/daily_digest.py:251-264 | a safe text fits its byte limit as soon as the ellipsis does |
| DigestRender.SafeTextKeeps | src/daily_digest.py:251-264 | a compact text that fits is unchanged |
| DigestRender.SafeTextTwice | src/daily_digest.py:251-264 | making a text safe is idempotent and leaves no line break |
| DigestRender.ChunkLines | src/daily_digest.py:282-296 | fails exactly below a budget of 256; otherwise the chunks are the normalised lines in order, none empty or over budget, none able to take the next line |
| DigestRender.PackingIsUnique | src/daily_digest.py:282-296 | those conditions determine the chunks |
| DigestRender.WidthIsBodySize | src/daily_digest.py:282-296 | the packer's running size is the byte size of the joined chunk |
| DigestMessages.LabelShape | src/daily_digest.py:103-106 | a window label has at most 33 characters and no line break |
| DigestMessages.HeadersDiffer | src/daily_digest.py:275-279 | two parts of one bundle have different headers |
| DigestMessages.HeaderFitsReserve | src/daily_digest.py:353-356 | no header of a bundle is larger than the reserved one |
| DigestMessages.Render | src/daily_digest.py:299-367 | refuses exactly a limit out of range or lines that need more than 999 parts |
| DigestMessages.BundleFits | src/daily_digest.py:299-367 | every message fits the limit, opens with its own header, and headers are distinct |
| DigestMessages.BodiesAreTheLines | src/daily_digest.py:353-367 | the bodies of a split bundle, put back together, are the normalised lines |
| DigestMessages.BundleIsFilled | src/daily_digest.py:299-367 | a bundle of some lines has a message and no empty header or text |
| DigestCalendar.StampTextInjective | src/daily_digest.py:102-106 | two different minutes are written differently |
| DigestCalendar.LabelNamesWindow | src/daily_digest.py:84-106 | two report windows with one label are one window |
| DigestCalendar.HeaderNamesWindow | src/daily_digest.py:275-279 | no header of one window's digest is a header of another window's, whichever parts they mark |
| DigestExecutions.LatestIsUnique | src/daily_digest.py:84-100 | the latest completed window is the only 18:00 window that ended less than a day ago |
| DigestExecutions.WindowsTile | src/daily_digest.py:84-100 | two report windows are equal or disjoint |
| DigestExecutions.EveryInstantIsReported | src/daily_digest.py:84-100 | every instant lies in exactly one report window |
| DigestExecutions.ClaimIsNext | src/daily_digest.py:672-718 | a claim is of the first unconfirmed part, with all before it confirmed and all from it waiting |
| DigestExecutions.ClaimKeepsValid | src/daily_digest.py:672-718 | claiming keeps the list's shape, its attempt count and when it is delivered |
| DigestExecutions.FinishKeepsValid | src/daily_digest.py:759-794 | so does recording how a claim ended |
| DigestExecutions.ReconcileKeepsValid | src/daily_digest.py:633-670 | so does a reconciliation |
| DigestExecutions.OneInFlight | src/daily_digest.py:601-631 | at most one part is in flight, so what is asked for is that part, its delay over |
| DigestExecutions.NeverInvalid | src/daily_digest.py:672-718 | on stored lists the claim never meets a part it calls invalid |
| DigestTables.ExpireKeeps | src/daily_digest.py:580-599 | expiring before a new window keeps the invariant and leaves only that window open |
| DigestTables.EnsureKeeps | src/daily_digest.py:501-578 | storing the new digest keeps the invariant |
| DigestTables.StoreKeeps | src/daily_digest.py:841-891 | writing parts back keeps the invariant and touches other rows only to mark missed ones |
| DigestTables.MarkedOnlyIfListed | src/daily_digest.py:878-891 | a write marks a missed window reported only when it confirms the last part of a later digest that lists the window |
| DigestTables.ConfirmationReportsAll | src/daily_digest.py:878-891 | such a write leaves no earlier missed window unreported |
| DigestTables.NewDigestListsAll | src/daily_digest.py:445-469 | a digest stored for the first time lists every missed window that is unreported |
| DigestTables.RenderedIsStorable | src/daily_digest.py:501-530 | whatever the renderer yields meets what the stored list needs |
| DigestLog.ClaimedInOrder | src/daily_digest.py:672-718 | in an orderly history a claim comes after the confirmation of every earlier part |
| DigestLog.ConfirmedNeverReclaimed | src/daily_digest.py:672-718 | in an orderly history a confirmed part is not claimed again |
| DigestLog.ReclaimedOnlyAfter | src/daily_digest.py:633-757 | in a legal history two claims of a part have between them a known rejection of the first attempt, or a search for that attempt, begun after the delay, that did not find it |
| DigestLog.LegalHistory | src/daily_digest.py:633-794 | a legal history is ordered, never reclaims a confirmed part, and spaces claims of one part as required |
| DigestRuns.StepKeeps | src/daily_digest.py:1021-1086 | every step, a stop at any point included, keeps the stored rows, the history and their agreement |
| DigestRuns.DeliveryHistory | src/daily_digest.py:1021-1086 | the history of every run of one scheduler, with stops anywhere, is ordered, never reclaims a confirmed part, and spaces claims of one part as required |
| DigestRuns.StoredRows | src/daily_digest.py:633-891 | in every reachable state lists are confirmed parts, at most one in flight, then waiting parts; delivered means all confirmed; the attempt count is the sum of attempts |
| DigestRuns.ClosedRowsNeverChange | src/daily_digest.py:580-599 | along every run a delivered or missed row changes only by gaining the reported mark |
| DigestRuns.ReportedByListing | src/daily_digest.py:878-891 | a window that a run marked reported was marked by the full confirmation of a later digest listing it |
| DigestRuns.LaterDigestsList | src/daily_digest.py:445-469 | until it is reported every digest stored later lists it |
| DigestRuns.AttemptProgress | src/daily_digest.py:1042-1086 | a claim that is accepted leaves fewer unconfirmed parts |
| DigestRuns.ReconcileProgress | src/daily_digest.py:1042-1086 | a reconciliation confirms a part or takes one out of flight |
| DigestRuns.TwoSchedulersResendEarly | src/daily_digest.py:633-718 | two schedulers on one execution can claim a part twice within seconds with no rejection and no search for it |
| DigestConcurrency.StoredAgrees | src/daily_digest.py:501-578 | a digest just stored agrees with the empty history |
| DigestConcurrency.CallLegal | src/daily_digest.py:580-794 | a call by any scheduler, with a claim or a search of any attempt, keeps row and history in agreement and records at most one event, orderly always and legal exactly when the call is justified |
| DigestConcurrency.LegalIffJustified | src/daily_digest.py:580-794 | over any interleaving of calls the history is legal exactly when every rejection that reopens a part is of the attempt in flight and every search that reopens one asked about that attempt, overdue when it began |
| DigestConcurrency.OrderNeedsNoGuard | src/daily_digest.py:580-794 | over any interleaving parts are claimed in order and a confirmed part is never claimed again |
| DigestConcurrency.NumbersNameClaims | src/daily_digest.py:672-718 | over any interleaving two claims of one part have different attempt numbers, so a number names one claim |
| DigestConcurrency.GuardSpacesClaims | src/daily_digest.py:633-794 | that condition spaces the claims of every interleaving |
| DigestConcurrency.UnjustifiedBreaksSpacing | src/daily_digest.py:633-794 | after a finish or a reconciliation that fails the condition the next claim, whenever it comes once the retry is due, breaks the spacing |
| DigestConcurrency.GuardIsExact | src/daily_digest.py:633-794 | after a legal history any call meets the condition exactly when every claim that can follow it is spaced |
| DigestConcurrency.SpacedExactlyWhenJustified | src/daily_digest.py:580-794 | over any interleaving every claim that could come at any point is spaced exactly when every call meets the condition |
| DigestConcurrency.ClaimPutsInFlight | src/daily_digest.py:672-718 | every claim puts an attempt in flight that is overdue the delay later |
| DigestConcurrency.LateRejectionResendsEarly | src/daily_digest.py:633-794 | such an attempt, searched for in time and not found, is claimed again, and its own late rejection then lets the part be claimed a third time a minute later, with nothing known of the second attempt |
| DigestReporting.StoringStaysComplete | src/daily_digest.py:445-578 | storing a digest keeps every pending digest listing all it could report exactly when it is stored in time |
| DigestReporting.CompleteIsExact | src/daily_digest.py:580-599 | until more is stored only listed windows will be marked exactly when every pending digest lists all it could report |
| DigestReporting.MarksListedExactlyInTime | src/daily_digest.py:445-599 | over any interleaving of statements by any number of schedulers every mark is of a listed window, then and later, exactly when every digest is stored in time |
| DigestReporting.OneSchedulerIsInTime | src/daily_digest.py:1021-1040 | a scheduler that has just closed all earlier rows stores in time |
| DigestReporting.LateStoreMarksUnlisted | src/daily_digest.py:841-891 | a digest stored when a later one that does not list it is pending gets marked reported by that one |
| DailyDigest.DailyDigestRepository.ReconciliationCandidates | src/daily_digest.py:601-631 | the overdue headers and a minute before the earliest of their attempts, or nothing when none is overdue |
| DailyDigest.DailyDigestRepository.ReconcileParts | src/daily_digest.py:633-670 | rows after the call are those of the reconciliation |
| DailyDigest.DailyDigestRepository.ClaimNextPart | src/daily_digest.py:672-718 | answer and rows are those of the claim |
| DailyDigest.DailyDigestRepository.FinishClaimedPart | src/daily_digest.py:759-794 | rows are those of the finish; false exactly for a claim of no part |
| DailyDigest.DailyDigestRepository.EnsureExecution | src/daily_digest.py:501-578 | renders under the window's own label and stores, keeping a row that is already there; a refusal changes nothing |
| DailyDigest.DailyDigestRepository.MarkExpiredExecutionsMissed | src/daily_digest.py:580-599 | closes exactly the pending rows that ended by the cutoff |
| DailyDigest.DailyDigestScheduler.RunDue | src/daily_digest.py:1021-1040 | however a pass goes and wherever it stops, it extends a legal run of the state machine |
| DailyDigest.DailyDigestScheduler.DeliverPendingExecution | src/daily_digest.py:1042-1086 | the loop ends for every behaviour of the chat and extends a legal run |
| EmailEvents.DecisionsAreLegal | src/ingestion/email_events.py:146-183 | no input's decision fails its own validation or the application manifest |
| EmailEvents.FirstCreateAtMostOnce | src/ingestion/email_events.py:514-650 | at most one event of any run is decided as the first CREATE |
| EmailEvents.NothingProcessesAfterDelete | src/ingestion/email_events.py:514-650 | after a DELETE no event elects processing or cancels |
| EmailEvents.EffectsNeitherRepeatedNorCancelled | src/ingestion/email_events.py:514-650 | once external effects have started no event elects processing or cancels |
| EmailEvents.MetadataIsInert | src/ingestion/email_events.py:514-650 | erasing UPDATE and READ events leaves the other events' outputs unchanged, and the final state once one of those has occurred |
| EmailEvents.ErasureIsExact | src/ingestion/email_events.py:514-650 | erasing UPDATE and READ events leaves the final state the same exactly when a CREATE or DELETE occurred or there was nothing to erase |
| CanonicalJson.SortedKeysAreSorted | src/ingestion/normalization.py:92-108 | the written keys are the object's, sorted by code point |
| CanonicalJson.EscapePrefixFree | src/ingestion/normalization.py:92-108 | an escaped string and what follows it are determined by the text |
| CanonicalJson.TextPrefixFree | src/ingestion/normalization.py:92-108 | no value's text is the front of another value's |
| CanonicalJson.CanonicalBytesInjective | src/ingestion/normalization.py:92-108 | two values, floats included, have the same canonical bytes exactly when they are equal |
| PlainJson.PlainCopy | src/ingestion/normalization.py:46-89 | the copy succeeds exactly on what unfolds to a finite JSON value, shared parts included, and is that value |
| PlainJson.Copier.Plain | src/ingestion/normalization.py:46-89 | the active set is restored; what is refused holds a cycle, a bad string or an unsupported part |
| DedupeKey.CanonicalFolderIsStable | src/ingestion/folder_identity.py:51-56 | canonicalising a folder identity is idempotent |
| DedupeKey.SameKeyIffSameChange | src/ingestion/normalization.py:307-379 | two accepted changes share a key exactly when account, kind, email, canonical folder, version and cursor agree |
| DedupeKey.CountedDistinct | src/ingestion/models.py:454-456 | as many different identities as changes means pairwise different |
| DedupeKey.BatchNeverCollapses | src/ingestion/models.py:420-458 | no two changes of one valid batch share a key |
| HistoricalConsensus.HistoricalRouteConsensus.Decide | src/handoff/history.py:18-148 | the loops compute the decision, its evidence and its candidate actions in order, as defined on the tally and the order of first sight; its verdict is that on the evidence as a whole |
| HistoricalConsensus.OrderDoesNotMatter | src/handoff/history.py:18-129 | outcome, selected action, votes and denominator are the same for every permutation of the hits |
| HistoricalEvidence.DecisionLists | src/handoff/history.py:66-148 | a decision lists only emails that bear on it, none twice, and as many as there are up to sixteen |
| HistoricalEvidence.ConflictOffers | src/handoff/history.py:72-112 | a conflict of which nothing is cut off offers exactly the labels of the emails it lists, each with the emails that carry it |
| HistoricalEvidence.OrderOnlyReorders | src/handoff/history.py:18-148 | permuting the hits leaves the verdict and the number of listed emails, and, when nothing is cut off, the listed emails and what is offered with them, up to order |
| HistoricalConsensus.RepeatingAHitChangesNothing | src/handoff/history.py:27-52 | repeating an identified hit changes nothing, neither the verdict nor any list |
| HistoricalConsensus.FewEligible | src/handoff/history.py:90-97 | with ratio r at most 1/r actions are eligible |
| HistoricalConsensus.DefaultTieIsAnExactSplit | src/handoff/history.py:90-97 | at the default two actions are eligible only if they split all evidence exactly in half |
| Utf8.DecodeEncoded | src/graph/state_factory.py:84-91 | decoding an encoding gives the text back |
| Utf8.ClipIsLongestFit | src/graph/state_factory.py:84-91 | cutting bytes and ignoring errors keeps whole characters one at a time while they fit |
| StateFactory.TruncateIsLongestPrefix | src/graph/state_factory.py:84-91 | truncation fails exactly on a negative limit; else it is the longest whole-character prefix that fits, and idempotent |
| StateFactory.TruncateTwice | src/graph/state_factory.py:84-91 | a shorter limit after a longer one is the shorter limit |
| StateFactory.CapIdentifierList | src/graph/state_factory.py:108-129 | the loop accepts exactly short enough lists of bounded non-empty identifiers, or their front |
| DotEnv.ReadEnvFile | src/deployment/configuration.py:108-130 | the loop computes the line-by-line reading |
| DotEnv.ReadIsReadable | src/deployment/configuration.py:108-130 | everything read has the form of a key and a one-line value |
| DotEnv.SplitJoinLines | src/deployment/configuration.py:117-119 | lines joined by newlines split into the same lines, unless the last is empty |
| DotEnv.ReadEntry | src/deployment/configuration.py:117-129 | a printed entry is read as what was printed |
| DotEnv.RenderedReadsBack | src/deployment/configuration.py:274-275 | any map the reader can produce, printed and read back, is the map |
| DeploymentConfiguration.ComputeAdvancedValues | src/deployment/configuration.py:262-271 | the loop computes the overlay, refusing unknown keys |
| DeploymentConfiguration.AdvancedRecomputed | src/deployment/configuration.py:262-271 | recomputing from the reduced user file changes nothing |
| DeploymentConfiguration.AdvancedRecomputedEarly | src/deployment/configuration.py:262-271 | neither does recomputing from the user file it was computed from |
| DeploymentConfiguration.UserFileReadsBack | src/deployment/configuration.py:248-259 | reading the written user file gives the user's values, the last without trailing white space |
| DeploymentConfiguration.KeptWritesTheSame | src/deployment/configuration.py:248-259 | rendering the user file a second time reproduces it |
| DeploymentConfiguration.ConfigureTwice | src/deployment/configuration.py:278-426 | a second run accepts what the first wrote and writes both dotenv files again byte for byte |
| DeploymentConfiguration.StoppedRunResumes | src/deployment/configuration.py:386-426 | files left by a run stopped before, between or after the two writes configure to what the whole run would have written |
| DeploymentConfiguration.Deployment.Run | src/deployment/configuration.py:278-426 | a modelled refusal writes nothing, a run that ends wrote both files, and wherever it stops the next run writes what it would have |
| DeploymentScheme.SchemeIsWellFormed | src/deployment/configuration.py:20-89 | the deployment's tables meet what the theorem needs: keys distinct, valid and disjoint |
| DeploymentScheme.DeploymentConfiguredTwice | src/deployment/configuration.py:278-426 | configuring this deployment twice is configuring it once |
| HistoryImport.FetchExchangeEmails | scripts/import_pst.py:588-717 | the loop computes the page-by-page reading |
| HistoryImport.ReadingCounts | scripts/import_pst.py:620-717 | from any point of the reading each request asks for what follows, and a normal return holds exactly the smaller of the limit and the total of the first page that claims one |
| HistoryImport.FetchIsExact | scripts/import_pst.py:588-717 | so for the whole reading, which lists exactly that many items |
| HistoryImport.ServedMailboxIsRead | scripts/import_pst.py:588-717 | from a server that serves a mailbox the reading returns the mailbox's front, up to the limit |
| HistoryImport.FetchDetails | scripts/import_pst.py:653-697 | every item becomes an email or a counted failure |
| HistoryImport.ImportRun.RunImport | scripts/import_pst.py:950-1012 | a normal end counts every email once and hands over the key of every first non-empty email, in order |
| HistoryImport.NoKeyTwice | scripts/import_pst.py:955-966 | however the import ends no key was handed over twice |

## Left out

- SQL catalogue and privilege checks, the database functions, triggers and unique indexes, and savepoint rollback inside a handoff transaction: their SQL is not part of this model.
- HTTP, chat, vector-store, model and mailbox clients, PDF generation, and PST, EML and MIME parsing: they answer arbitrarily; what PDF generation itself writes to the checkpoint is not part of this model.
- Server lifespan, routes, command handlers and deployment scripts.
- Real time zones, SHA-256 and UUID internals, how `repr` spells a float, and the rounding of the vote ratio.
- Other coroutines that touch one email's checkpoint at the same time: the resource lock is assumed to exclude them for the length of a delivery, also between a handle's record and its delete.
- HistoricalConsensus.HistoricalRouteConsensus.Decide: route, parameters and profile of a matched decision are those of the selected action, for which its fingerprint stands; the decision's own validation is not modelled.
- How digest lines are worded from a snapshot, and the snapshot's counts: the renderer is proved for every list of lines.
- `_freeze_json_value`, `_materialize_json_value` and `_postgres_jsonb_numeric_expansion_bytes`: value copying and a size estimate that no other property here needs.
- The checks of a sync item's fields other than its presence, and the link projection of uploaded attachments.
- The computing of a history email's identity, and KeyboardInterrupt during an import.
- DeploymentConfiguration.ConfigureTwice: covers the two dotenv files; the secrets, receipt keys and project name that configuring also writes, and its refusals on their account, are not modelled.
- DeploymentScheme.DeploymentConfiguredTwice: covers the same two files of this deployment.
- DeploymentConfiguration.Deployment.Run: an invalid project name is refused after the first write, which the model counts as a stop there; each file is replaced in one step, as the rename that ends a write does; the run can stop between the two writes, not inside one.
- DigestRuns.DeliveryHistory: spaces the attempts of a single scheduler; with several the spacing holds exactly when DigestConcurrency.SpacedExactlyWhenJustified says.
- DigestRuns.ReportedByListing: is of a single scheduler, as is DigestTables.MarkedOnlyIfListed; with several a marked window is a listed one exactly when DigestReporting.MarksListedExactlyInTime says.
- DailyDigest.DailyDigestRepository.EnsureExecution: windows that end outside the years 1 to 9999, which Python cannot represent, are not modelled.
- PlainJson.PlainCopy: the interpreter's recursion limit is not modelled.
- EmailFeishuDelivery.EmailFeishuDelivery.StageReviewPdf: does not promise that a new PDF is tracked when its handle or address is malformed or the checkpoint yields no state, because the code returns there without recording it.
- EmailFeishuDelivery.EmailFeishuDelivery.Publish: sending the card once is one step; a cancellation while it is sent counts as an unknown outcome.
- HistoryImport.FetchExchangeEmails: the server stops answering after some number of requests, any number; the loop itself goes on for a server whose details always fail.
- DotEnv.ReadEnvFile: case folding is written out only for characters that fold to an identifier character.
