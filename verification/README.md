# Evidentia's evidence-integrity machinery, verified

Evidentia stores legal evidence and promises that tampering shows. This project models the machinery behind
that promise and proves what it keeps over every input, every interleaving and every run:

- the **audit chain**: canonical JSON metadata down to the characters, the labelled text that is hashed, concurrent
  writers, and a batched scan that runs beside them (`Json`, `JsonLayout`, `JsonGrammar`, `Canonical`, `CanonicalText`,
  `EntryText`, `AuditChain`, `ChainProtocol`, `ChainProgress`, `ChainWriter`);
- the **verification jobs** that run those scans (`VerificationJobs`, `VerificationRaces`, `VerificationResults`);
- the **ledger chaincode**, the **anchor outbox** that feeds it, and the three-way check (`Ledger`, `LedgerOrder`,
  `Fabric`, `AnchorOutbox`, `AnchorResults`);
- **watermark blocks** behind JPEG, PNG and PDF end markers (`Watermark`);
- **refresh-token families** (`Sessions`, `SessionRaces`), the **login limiter** (`Limiter`), the **streaming size
  guards** (`Upload`), **pixel redaction** (`Redaction`), and **delegated document access** under row-level security
  (`Access`).

Transactions are modelled as steps of a state machine: one action is one committed statement, so every interleaving of
statements is a run. Row guards, CHECK constraints, unique indexes, lock-to-commit and row-level security follow the SQL
migrations. Objects whose methods change rows, counters, buffers or pixels are classes, and each of their methods is
proved against the function that the lemmas are about. SHA-256 is an arbitrary function with 32-byte results: no
injectivity is assumed, so tamper evidence reads "the same log, or here is a collision".

Some of the properties the code or its comments suggest do not hold as stated. Each is given its exact condition:

- **The hashed text is ambiguous** exactly when `role`, `action` or `resource_type` smuggles one of the labels
  `\naction=` or `\nresource_type=` into itself (`EntryText.PreimageIdentifiesEntry`). Every accepted log with such a row
  has a different accepted log with the same head and no collision (`AuditChain.SmuggledLabelHidesTampering`).
- **A stored row re-canonicalizes to what was hashed** exactly when the text read back holds the same data
  (`Canonical.RelayoutKeepsCanonicalForm`). jsonb's re-reading of -0 as 0 is a case in which it does not, and a genuine
  row then looks tampered (`Canonical.NegativeZeroIsLost`).
- **A terminal verification status is not final** while a scan of a job already marked FAILED is still in flight, or an
  error handler has seen the job active and not yet written: `CompleteAuditVerification` has no status guard, although
  its comment says the terminal state is set exactly once (`VerificationJobs.TerminalFinalIff`, with runs that reach
  both in `VerificationRaces`). What holds without exception is that the error handler declares a job failed only after
  its last retry (`VerificationResults.FailedOnlyAfterLastRetry`).
- **Starting a verification can fail** although it promises the active job: exactly when no job is active any more by
  the time the refused request looks for it, and that can happen after every refusal (`VerificationRaces.StartFailsIff`,
  `VerificationRaces.RefusedRequestCanFail`).
- **Exhausted anchors stay PENDING**: the error handler passes retry count -1, which a CHECK constraint refuses, and no
  rejection by the chaincode contains the wording that the service takes for a final answer, so each counts as
  "unavailable" (`Fabric.RejectionIsUnavailable`). A row becomes FAILED only through an error text of the gateway's own
  that contains the wording (`AnchorOutbox.ExhaustedRowsStayPending`, `AnchorOutbox.WordingFailsARow`).
- **Exports are never anchored**: their event type is not in the CHECK constraint (`AnchorOutbox.ExportsAreNeverAnchored`).
- **Ledger keys sort like versions** from 0 on exactly below 10^10 (`LedgerOrder.KeyOrderIffTenDigits`). On an interval
  of any versions the chaincode accepts they do exactly if it lies between -1 and 10^10, or all its versions have one
  number of digits from eleven on, or it is one pair at a change of length on the negative side
  (`LedgerOrder.KeyOrderIff`). Negative versions above -10^9 always sort backwards
  (`LedgerOrder.NegativeVersionsSortBackwards`).
- **Watermarking again replaces the old mark** always for PDF, for JPEG below 0xFFD900 payload bytes, for PNG only if
  the file has its whole IEND chunk and the old block does not contain `IEND`, and never for other files, whose first
  mark is the one that is read (`Watermark.Rewatermark`, `Watermark.PNGCounterexample`, `Watermark.GenericKeepsFirst`).
- **A family can have two live sessions** for two reasons: overlapping refreshes of one token, and a rotation that fails
  after the new session was issued (`SessionRaces.OverlappingRefreshes`, `SessionRaces.AbortedRotation`). From a
  reachable state it can get a second one exactly if it has two, or has a session that can still be refreshed, or a
  refresh is past its lookup (`SessionRaces.SecondLiveSessionIff`); in runs that avoid both causes it never keeps two
  (`SessionRaces.DisciplineKeepsFamiliesSingle`). A token is never refreshed again exactly when it is revoked or expired
  and no refresh is past its lookup (`SessionRaces.NeverRefreshedIff`), and a revoked family comes back to life exactly
  when a refresh of it is (`Sessions.DeadForeverIff`).
- **The limiter admits at most 2 * limit - 1** attempts in any half-open interval as long as its window lives, and that
  is reached (`Limiter.IntervalBoundIsTight`). Its retryAfter is a rounded TTL: after it the attempt is admitted exactly
  when the remaining time was not rounded down (`Limiter.RetryAfterIsRounded`). A lost INCR reply or failed EXPIRE
  leaves a counter that never expires (`Limiter.NoTTLNeverRecovers`).
- **Redaction as a function of any image covers the requested regions** exactly when the image's origin is (0, 0), or no
  region can pass: the checks use absolute coordinates, the mask is shifted by the origin
  (`Redaction.CoversIffAtOrigin`). RedactDocument cannot reach the failing case: it accepts only PNG and JPEG, whose
  decoders place every image at (0, 0).
- **The two authorization layers differ** exactly for an owner of the case who is no member of it and has no share
  (`Access.DocumentLayersAgreeIff`, `Access.SortedRolesLeaveOnlyOwners`, `Access.RemovedCreatorIsHidden`).

`dafny verify dfyconfig.toml` checks everything.

## Model

| member | source | states |
|---|---|---|
| Canonical.NormalizeDecidesContent | backend/internal/audit/chain.go:78-94 | Two JSON values have the same normal form if and only if they hold the same data: member order and overwritten duplicates never matter at any depth, everything else does |
| Canonical.MarshalRoundTrip | backend/internal/audit/chain.go:78-94 | Parsing what was marshalled gives back exactly the value, so the canonical text is injective |
| JsonLayout.ParseRender | backend/internal/audit/chain.go:78-94 | The character-level parser recovers the value from every layout: any white space, any escapes, surrogate pairs included, any member order |
| JsonGrammar.ParsesExactlyLayouts | backend/internal/audit/chain.go:78-94 | A text parses as a value if and only if it is one of that value's layouts, so nothing else is ever accepted |
| Canonical.CanonicalizeIdempotent | backend/internal/audit/chain.go:78-94 | Canonicalizing any text that canonicalizes a second time changes nothing |
| Canonical.CanonicalFormDecidesContent | backend/internal/audit/chain.go:78-94 | Any two texts that parse to objects canonicalize to the same text if and only if they hold the same data |
| Canonical.RelayoutKeepsCanonicalForm | backend/internal/audit/writer.go:214-220 | Whatever object text comes back for an event's stored metadata, it canonicalizes to the text that was hashed if and only if it holds the same data |
| Canonical.NegativeZeroIsLost | backend/internal/audit/chain.go:78-94 | A stored -0 that comes back as 0 canonicalizes differently, for every number format that tells the two apart |
| Canonical.EventMetadataAlwaysCanonicalizes | backend/internal/audit/writer.go:205-220 | Every event map of JSON values, including a nil one, can be canonicalized |
| Canonical.CanonicalFormIsOneLine | backend/internal/audit/chain.go:96-127 | A canonical form holds no newline, so it occupies exactly one line of the hashed text |
| CanonicalText.CanonicalFormSpelledOut | backend/internal/audit/chain.go:78-94 | The canonical form of an object text is the compact text, with Go's escapes, of the one value that holds the same data with ascending keys at every depth |
| CanonicalText.CanonicalizesIff | backend/internal/audit/chain.go:78-94 | Exactly the empty text, null and object texts are canonicalized, the first two as the empty object |
| EntryText.WriteEntry | backend/internal/audit/chain.go:111-127 | Appending the labelled lines field by field to the builder yields exactly the preimage function |
| EntryText.LabelledLines | backend/internal/audit/chain.go:111-127 | The hashed text is these eleven lines in this order, each field behind its own label, and splitting it at newlines gives them back if no field holds one |
| EntryText.TimeTextReads | backend/internal/audit/chain.go:111-127 | Year, month, day, clock and fraction are read back from their places in the timestamp's text |
| EntryText.TimeTextInjective | backend/internal/audit/chain.go:111-127 | The RFC 3339 text with trimmed nanoseconds identifies the instant |
| EntryText.UuidOrEmptyInjective | backend/internal/audit/chain.go:129-134 | The text of an optional UUID identifies it; absent is never confused with present |
| EntryText.PrevHashOrGenesisInjective | backend/internal/audit/chain.go:144-149 | "genesis" is never the hex text of a digest, and the text identifies the predecessor's bytes |
| EntryText.PreimageIdentifiesEntry | backend/internal/audit/chain.go:111-127 | The hashed text determines every field if and only if no label is smuggled into role, action or resource type |
| AuditChain.VerifyRow | backend/internal/audit/verifier.go:139-206 | One row passes exactly when it follows its predecessor and re-hashes to its stored hash; otherwise it returns the report of the first check that fails |
| AuditChain.VerifyBatch | backend/internal/audit/verifier.go:137-208 | Success exactly when every row is good; otherwise the first bad row, its failure type, and the number of rows before it |
| AuditChain.ReportNames | backend/internal/audit/verifier.go:146-206 | For every report of a failure: which of the four failure types it names, if and only if, and which of the four hashes it carries, in terms of the first bad row, its predecessor and the labelled text of its columns |
| AuditChain.SuccessNames | backend/internal/audit/verifier.go:137-208 | A report of success counts every row and hands on the last hash, and every row names its predecessor and stores the hash of its columns' labelled text |
| AuditChain.ReportUnique | backend/internal/audit/verifier.go:137-208 | Verdict, failing entry, failure type and count are determined by the rows, and success means the whole is accepted |
| AuditChain.ReportsCompose | backend/internal/service/audit_service.go:672-725 | The report on what follows a passed page is, with counts added, the report on the whole |
| AuditChain.VerifyBatches | backend/internal/service/audit_service.go:672-725 | For every page size of at least one, paging terminates with the verdict, failing entry, failure type and count of one call on the whole table |
| AuditChain.PageOf | backend/db/generated/audit.sql.go:516-523 | Keyset paging continues at the first row not yet read, even with gaps in seq, and fills the page unless the table ends |
| AuditChain.TamperEvidence | backend/internal/audit/verifier.go:137-208 | Two accepted logs ending in the same hash, one of which smuggles no label, have the same length and agree on every hashed field, or two of their rows exhibit a SHA-256 collision |
| AuditChain.SmuggledLabelHidesTampering | backend/internal/audit/chain.go:111-127 | Every accepted log with a smuggled label in some row has a different accepted log of the same length and head that hashes the same texts |
| ChainProtocol.NoForkIffGuarded | backend/internal/audit/writer.go:126-203 | Under every interleaving the log has one genesis and each row names the row before it, in seq order, if and only if the advisory lock or the unique indexes are in place |
| ChainProtocol.CommitExtendsHead | backend/internal/audit/writer.go:139-186 | The log that a committing transaction extends is exactly the log whose head it read, by the lock or by the indexes alone, and stays linear |
| ChainProtocol.TwoGenesisRows | backend/internal/audit/writer.go:141-150 | Without both defences two concurrent writers do fork the chain at its genesis |
| ChainProtocol.RecordedExactlyOnce | backend/internal/audit/writer.go:100-203 | Every call has at most one row; it has one, which records its event, exactly when it returned without error or only the reply to its COMMIT was lost; and the log is accepted by the verifier however jsonb re-lays it out |
| ChainProtocol.ReadBackIsGood | backend/internal/audit/verifier.go:167-204 | A row read back after any re-layout and after the NULL/empty role mapping re-hashes to its stored hash |
| ChainProtocol.FinishedScanCoversLog | backend/internal/service/audit_service.go:672-725 | A scan interleaved with writers never reports a failure, and when it ends it has checked every row committed before its last page was read |
| ChainProtocol.LockLeavesOnlyHashConflicts | backend/internal/audit/writer.go:190-203 | With both defences an insert never waits and is never refused for its predecessor, only for a repeated digest |
| ChainProtocol.RefusedInsertStartsOver | backend/internal/audit/writer.go:126-202 | In every run a refused insert leaves the log alone and gives up the lock, and the call starts over unless that was its third attempt; none makes a fourth |
| ChainProgress.CallRecordsItsEvent | backend/internal/audit/writer.go:126-203 | From every reachable state with a free lock a new call for any event can record it, as exactly one row behind the head with the next seq, unless the row's digest is in the log already |
| ChainProgress.LockIsReleased | backend/internal/audit/writer.go:127-203 | In every run the lock is held by exactly the open transaction that took it |
| ChainProgress.ScanFinishes | backend/internal/service/audit_service.go:672-725 | From every reachable state a scan that is given the rest of the log finishes and has verified every committed row |
| ChainWriter.AuditLog.InsertAuditEntry | backend/internal/audit/writer.go:235-249 | The insert is refused exactly when its predecessor or digest is taken, and otherwise appends the row |
| ChainWriter.RunAttempt | backend/internal/audit/writer.go:127-187 | One transaction against rows that others commit in between: it conflicts, fails, or appends a row recording the event and keeps the log linear |
| ChainWriter.RunAttempts | backend/internal/audit/writer.go:126-202 | The loop ends with the first attempt that does not conflict, or after all of them |
| ChainWriter.Append | backend/internal/audit/writer.go:100-203 | Success puts exactly the event directly behind the head that was read; giving up means every attempt conflicted; otherwise nothing of the event is in the log, which always stays linear |
| VerificationJobs.VerificationTable.StartVerification | backend/internal/service/audit_service.go:322-388 | A new job exactly when none is queued or running, otherwise the active one and no change |
| VerificationJobs.VerificationTable.UpdateStale | backend/db/generated/audit_verification.sql.go:374-382 | The guarded update fails exactly the queued or running row and keeps every constraint |
| VerificationJobs.VerificationTable.ReconcileStale | backend/internal/service/audit_service.go:566-591 | Returns a row that is terminal or within its threshold, persists every correction, and never touches a row that finished meanwhile |
| VerificationJobs.ReportsAreVerdicts | backend/internal/service/audit_service.go:741-751 | Every report of the scan carries a failure type that the failure-field constraint accepts |
| VerificationJobs.JobsAreSafe | backend/internal/service/audit_service.go:566-662 | Over every run of starts, duplicate deliveries, retries, stale marking and handlers: at most one job queued or running, constraints hold, each job is scanned by at most one delivery, and every row returned to a reader is terminal or within its threshold |
| VerificationJobs.RankNeverDrops | backend/db/generated/audit_verification.sql.go:331-382 | No row disappears and the rank QUEUED < RUNNING < terminal never drops |
| VerificationJobs.ScanCompletionAccepted | backend/internal/service/audit_service.go:741-784 | Storing a scan's result is never refused, also when a reader has failed the job meanwhile, and it always overwrites the status |
| VerificationJobs.HandlerCompletionAccepted | backend/internal/service/audit_service.go:795-825 | The error handler's write is never refused and always leaves FAILED |
| VerificationJobs.NoUpdateRefused | backend/db/generated/audit_verification.sql.go:15-25 | No statement that any run executes is refused by a CHECK constraint or the single-active index |
| VerificationJobs.TerminalFinalIff | backend/db/generated/audit_verification.sql.go:15-25 | A terminal status is final if and only if no scan of a failed job is in flight, respectively no error handler is armed over a finished one |
| VerificationResults.FailedOnlyAfterLastRetry | backend/internal/jobs/audit_verification.go:146-186 | In every run a job is declared operationally failed, or a handler is about to, only once its third retry has been delivered |
| VerificationResults.HandlerArmsIff | backend/internal/jobs/audit_verification.go:146-186 | From every reachable state the handler of a failed delivery arms if and only if that was the third retry and the job is queued or running; before it nothing changes |
| VerificationResults.HandlerStores | backend/internal/service/audit_service.go:795-825 | An armed handler stores FAILED, its error class and the count it saw, and no failed entry |
| VerificationResults.ScanStores | backend/internal/service/audit_service.go:741-784 | A finished scan stores its verdict, its count and, of a failure, the report's entry, sequence number and type, and nothing else |
| VerificationResults.ProgressStores | backend/internal/service/audit_service.go:700-713 | A page's progress stores the count and the last sequence number while the job is running, and nothing over a job that is not |
| VerificationResults.BeginStores | backend/internal/service/audit_service.go:609-634 | A delivery starts a queued job with the counted total, and otherwise ends without touching the table |
| VerificationResults.ReturnedRowsAreFresh | backend/internal/service/audit_service.go:566-591 | In every run a returned queued row is younger than 300 seconds and a running one than 120, and a reader finds a row stale if and only if it is not |
| VerificationRaces.FailedBecomesVerified | backend/internal/service/audit_service.go:641-648 | A reachable run in which FAILED turns into VERIFIED |
| VerificationRaces.VerifiedBecomesFailed | backend/internal/jobs/audit_verification.go:146-171 | A reachable run, with all its failed retries, in which VERIFIED turns into FAILED |
| VerificationRaces.StartFailsIff | backend/internal/service/audit_service.go:349-367 | A refused request fails in its second transaction if and only if no job is active any more, and otherwise finds the one active job |
| VerificationRaces.RefusedRequestCanFail | backend/internal/service/audit_service.go:349-367 | After every refusal in every run some continuation makes the request fail |
| Ledger.Contract.AnchorEvidence | chaincode/evidentia/chaincode.go:64-133 | Write-once: no existing record changes, errors change nothing, and success means the ledger holds exactly this hash under the returned transaction id |
| Ledger.SubmissionDecides | chaincode/evidentia/chaincode.go:64-133 | In terms of the records alone: which malformed submission gets which error, what an existing record of the version decides, and exactly which record with which fields is added otherwise |
| Ledger.Contract.GetEvidence | chaincode/evidentia/chaincode.go:137-165 | Succeeds exactly when a record of this evidence and version exists, and returns one |
| Ledger.Contract.GetEvidenceLatest | chaincode/evidentia/chaincode.go:171-200 | The record with the maximum version among all of this evidence, whatever the key order |
| Ledger.Contract.GetEvidenceHistory | chaincode/evidentia/chaincode.go:207-231 | Exactly the records of the evidence, once each, in key order |
| Ledger.KeyIdentifies | chaincode/evidentia/chaincode.go:236-243 | A composite key determines evidence id and version |
| LedgerOrder.KeyOrderIffTenDigits | chaincode/evidentia/chaincode.go:233-243 | Keys of versions from 0 up to a bound sort as the numbers do if and only if the bound is at most 10^10 |
| LedgerOrder.KeyStepOrder | chaincode/evidentia/chaincode.go:233-243 | For every version, negative ones included, exactly when its key sorts before its successor's |
| LedgerOrder.KeyOrderIff | chaincode/evidentia/chaincode.go:78-81 | On every interval of at least two versions the keys sort as the numbers do if and only if the interval lies in [-1, 10^10), or holds versions of one length only from eleven digits on, or is one pair at a change of length on the negative side |
| LedgerOrder.NegativeVersionsSortBackwards | chaincode/evidentia/chaincode.go:78-81 | Any two negative versions above -10^9, which the contract accepts, sort backwards |
| Ledger.HistoryAscends | chaincode/evidentia/chaincode.go:202-231 | For ten-digit versions history lists exactly the evidence's records in strictly ascending order, and its last element is the maximum |
| Ledger.WrittenOnce | chaincode/evidentia/chaincode.go:88-102 | Over every run of submissions each key is written at most once |
| AnchorOutbox.Service.MarkConfirmed | backend/internal/service/blockchain_anchor_service.go:823-839 | The guarded confirmation, or nothing when the database fails |
| AnchorOutbox.Service.MarkFailed | backend/internal/service/blockchain_anchor_service.go:841-854 | The guarded failure, or nothing when the database or a constraint refuses it |
| AnchorOutbox.Service.IncrementRetryCount | backend/internal/service/blockchain_anchor_service.go:856-867 | The guarded increment, or nothing when the database fails |
| AnchorOutbox.Service.SubmitAnchor | backend/internal/blockchain/fabric.go:116-154 | The gateway's outcome: accepted with the reported transaction id, unavailable, or rejected by wording alone, and the ledger changes exactly if the transaction ran |
| AnchorOutbox.Service.RunAnchor | backend/internal/service/blockchain_anchor_service.go:319-437 | One undisturbed call does exactly what its load, submit and record steps do, and asks for a retry exactly when they end in an error |
| AnchorResults.RunAnchorSettles | backend/internal/service/blockchain_anchor_service.go:319-437 | What one call makes of a pending row and when it asks for a retry: confirmed exactly if the chaincode's reply accepts, failed exactly if an error text holds the wording, otherwise one retry more |
| AnchorResults.LedgerDescribesUploads | backend/internal/service/blockchain_anchor_service.go:361-370 | In every run every ledger record describes an upload: its document, version 1, hash, event type, case, organization and an anchor row of that document, each in its own field |
| AnchorResults.AnchorUploadCreates | backend/internal/service/blockchain_anchor_service.go:255-300 | Anchoring an upload adds one pending row with the content's hash exactly if Fabric is enabled, the document known and the id new |
| AnchorOutbox.OutboxOnlyProgresses | backend/db/generated/blockchain.sql.go:198-305 | Over every run with crashes, lost replies and redelivery: ledger records never change, rows that left PENDING never change, and what a row is to anchor never changes |
| AnchorOutbox.ConfirmedIsOnLedger | backend/internal/service/blockchain_anchor_service.go:400-405 | A CONFIRMED row carries the hash and transaction id that the ledger holds, and the hash is the upload's |
| AnchorOutbox.ConfirmedAgree | chaincode/evidentia/chaincode.go:88-99 | Two CONFIRMED rows for one document version hold the same hash and transaction id |
| AnchorOutbox.ExportsAreNeverAnchored | backend/internal/service/export_service.go:212-222 | An export's event type is refused by the CHECK constraint, so no run ever holds such a row |
| AnchorOutbox.HandlerChangesNoAnchor | backend/internal/service/blockchain_anchor_service.go:442-448 | The error handler's retry count -1 is refused, so it never changes a row |
| Fabric.Contains | backend/internal/blockchain/fabric.go:366-376 | The index loop finds the text exactly if it occurs |
| Fabric.WrapFabricError | backend/internal/blockchain/fabric.go:332-348 | An error counts as "not found" exactly if its text contains one of the two wordings |
| Fabric.RejectionIsUnavailable | chaincode/evidentia/chaincode.go:64-133 | No rejection by AnchorEvidence contains either wording, whatever hexadecimal hashes it quotes |
| AnchorOutbox.ExhaustedRowsStayPending | backend/internal/blockchain/fabric.go:332-348 | Whatever the chaincode rejects and however many retries are exhausted, no row ever becomes FAILED unless an error text of the gateway's own contains the wording |
| AnchorOutbox.WordingFailsARow | backend/internal/blockchain/fabric.go:340-344 | Every gateway text with the wording fails a row in a reachable run |
| AnchorOutbox.VerifyCandidate | backend/internal/service/blockchain_anchor_service.go:554-814 | Too-large candidates are refused; otherwise the report says what database and ledger say, independently, with the resolved status |
| AnchorOutbox.AccusedIffDifferent | backend/internal/service/blockchain_anchor_service.go:523-744 | After any run a check accuses a candidate if and only if its hash is not the upload's; the ledger never contradicts the database; and when exactly the report says match, unavailable or not anchored, with which hash and transaction id |
| Watermark.BuildBlock | backend/internal/service/watermark_service.go:187-198 | The buffer filled at moving offsets is magic, big-endian length, payload, magic, byte by byte |
| Watermark.EmbedAfterJPEGEOI | backend/internal/service/watermark_service.go:226-236 | Everything up to the last EOI, then the block; an error without EOI |
| Watermark.EmbedAfterPNGIEND | backend/internal/service/watermark_service.go:240-256 | Everything up to the end of the last IEND chunk, clipped to the file, then the block |
| Watermark.EmbedAfterPDFEOF | backend/internal/service/watermark_service.go:261-273 | Everything up to the last %%EOF, a newline, then the block |
| Watermark.FirstMagic | backend/internal/service/watermark_service.go:200-204 | Behind a prefix without magic the first magic is the block's own, or five bytes earlier exactly when the prefix ends in E7 1D A0 F0 1C |
| Watermark.RoundTrip | backend/internal/service/watermark_service.go:200-282 | If the kept part holds no magic, extraction returns exactly the payload, for files without end marker if and only if they do not end in E7 1D A0 F0 1C |
| Watermark.ExtractsFirstBlock | backend/internal/service/watermark_service.go:200-222 | Extraction returns a payload if and only if its block stands at the first magic of the file |
| Watermark.WatermarkAgain | backend/internal/service/watermark_service.go:226-282 | For every file and every block, embedding a second block equals embedding it into the original if and only if the first block holds no end marker (and a PNG has its whole IEND chunk) |
| Watermark.ShortBlocksHaveNoEOI | backend/internal/service/watermark_service.go:187-236 | Up to 0xFFD900 payload bytes, only that length puts an EOI into a block |
| Watermark.BlocksHaveNoEOF | backend/internal/service/watermark_service.go:187-273 | No block around a Base64 payload contains %%EOF |
| Watermark.Rewatermark | backend/internal/service/watermark_service.go:226-282 | For payloads as encrypt makes them, which formats replace the former mark, and that the latter is then extracted |
| Watermark.PNGCounterexample | backend/internal/service/watermark_service.go:240-256 | No block whose payload contains IEND, whatever its length, is replaced in a PNG |
| Watermark.GenericKeepsFirst | backend/internal/service/watermark_service.go:277-282 | Without end marker the first mark stays the one that is extracted |
| Sessions.AuthService.IssueSession | backend/internal/service/auth_service.go:389-427 | A new live session of the family at the end of the table |
| Sessions.AuthService.Login | backend/internal/service/auth_service.go:137-209 | One new session, in a family that no other session has |
| Sessions.AuthService.RevokeSessionFamily | backend/db/generated/auth_sessions.sql.go:132-136 | Revokes every live session of the family and changes nothing else |
| Sessions.AuthService.Refresh | backend/internal/service/auth_service.go:216-298 | Which guard gives which result: success exactly for a live, unexpired token of an active account, with the old session revoked and linked to its replacement; reuse revokes the family; every other outcome changes nothing |
| Sessions.RefreshIssuesIff | backend/internal/service/auth_service.go:216-298 | After every serial run a refresh adds a session if and only if the token is known, neither revoked nor expired, and the account active; otherwise no session is added or comes to life |
| Sessions.RevocationsReach | backend/db/generated/auth_sessions.sql.go:87-118 | Revoking all sessions of a user leaves none live and no other touched; logging out touches at most the owner's presented session |
| Sessions.AuthService.Logout | backend/internal/service/auth_service.go:309-330 | Revokes the caller's own session and never another user's |
| Sessions.FamiliesArePaths | backend/internal/service/auth_service.go:216-298 | In every run without interleaving each family has at most one live session and replaced_by links form one acyclic path through all its sessions |
| Sessions.RevocationIsFinal | backend/db/generated/auth_sessions.sql.go:87-118 | Under every interleaving sessions are never lost, a revoked one never changes, and links lead forward within the family |
| Sessions.DeadForeverIff | backend/internal/service/auth_service.go:229-240 | A family stays without live sessions for ever if and only if it has none now and no refresh of it is past its lookup |
| Sessions.ReuseKillsFamily | backend/internal/service/auth_service.go:229-240 | Reuse detection leaves the family without live sessions |
| Sessions.TwoLiveSessions | backend/internal/service/auth_service.go:262-291 | A reachable run in which two refreshes of one token leave two live sessions |
| SessionRaces.NeverRefreshedIff | backend/internal/service/auth_service.go:216-298 | A token is never refreshed again, whatever follows, if and only if it is revoked or expired and no refresh is past its lookup |
| SessionRaces.SecondLiveSessionIff | backend/internal/service/auth_service.go:229-291 | From a reachable state a family can get two live sessions if and only if it has two, has a session that can still be refreshed, or has a refresh past its lookup |
| SessionRaces.OverlappingRefreshes | backend/internal/service/auth_service.go:229-291 | From every state in which a live token has been looked up, a second refresh of it leaves two live sessions and both calls succeed |
| SessionRaces.AbortedRotation | backend/internal/service/auth_service.go:279-291 | From every state with a refreshable token, one refresh that fails after issuing leaves two live sessions and no call in flight |
| SessionRaces.DisciplineKeepsFamiliesSingle | backend/internal/service/auth_service.go:216-298 | In every run in which no refresh of a family starts while another is under way and none is abandoned after issuing, no family has two live sessions outside a rotation in progress |
| SessionRaces.SerialRunsAreRuns | backend/internal/service/auth_service.go:216-298 | Every run without interleaving is a run of the interleaved machine |
| Limiter.RedisLimiter.Incr | backend/internal/ratelimit/limiter.go:70-76 | Increments the key's counter, from zero and without a TTL if it is absent or expired |
| Limiter.RedisLimiter.Allow | backend/internal/ratelimit/limiter.go:70-91 | One attempt under every combination of Redis faults, with lifetimes set and read in whole seconds; only this key changes, and an error never denies |
| Limiter.RedisLimiter.Reset | backend/internal/ratelimit/limiter.go:93-97 | The counter is gone, others are untouched |
| Limiter.CounterIsPosition | backend/internal/ratelimit/limiter.go:36-45 | The counter is the attempt's position in its window, so each window admits its first limit attempts and no others |
| Limiter.FirstAttemptExpires | backend/internal/ratelimit/limiter.go:77-81 | The first attempt's counter lives for exactly its window if that is whole seconds, for less than a second less if not, and for one second if it is shorter |
| Limiter.WholeSecondWindows | backend/internal/ratelimit/limiter.go:36-52 | For windows of whole seconds: an attempt is admitted exactly if it is among the first limit of its window, and any half-open interval of a window's length admits at most 2 * limit - 1 |
| Limiter.DecisionUnderFaults | backend/internal/ratelimit/limiter.go:70-91 | Under every combination of faults: when there is an error, when an attempt is denied, what the counter becomes, and that an unreadable TTL asks for a whole window |
| Limiter.IntervalBound | backend/internal/ratelimit/limiter.go:42-52 | Any half-open interval as long as a window lives admits at most 2 * limit - 1 attempts |
| Limiter.IntervalBoundIsTight | backend/internal/ratelimit/limiter.go:47-52 | That bound is reached for every limit and every window |
| Limiter.DenialsNeverPostpone | backend/internal/ratelimit/limiter.go:70-91 | After a denial every attempt before the window's end is denied, none of them postpones that end, and from it on an attempt is admitted |
| Limiter.RetryAfterIsRounded | backend/internal/ratelimit/limiter.go:86-90 | After a denial the counter is gone half a second behind retryAfter, never more than half a second before it, and exactly at it if and only if the remaining time was not rounded down |
| Limiter.FaultLeavesNoTTL | backend/internal/ratelimit/limiter.go:73-82 | A window's first attempt leaves a counter without TTL if and only if INCR's reply is lost or EXPIRE is not executed |
| Limiter.NoTTLNeverRecovers | backend/internal/ratelimit/limiter.go:73-90 | From such a counter on every attempt beyond the limit is denied, however long one waits |
| Upload.ReadFull | backend/internal/service/document_service.go:709-717 | Sniffing takes the first 512 bytes, or all, and loses none |
| Upload.LimitedReader.Read | backend/internal/service/document_service.go:740-748 | Fails exactly from the read on that brings the total above the limit, and passes every byte through |
| Upload.Put | backend/internal/service/document_service.go:597-615 | What is stored and what is hashed are the same bytes, for every sequence of buffer lengths and every failure of the storage |
| Upload.StreamToStorage | backend/internal/service/document_service.go:597-615 | For every splitting of the reads and every failure of the storage: only an input within the limit is stored, byte for byte with its size and digest; only a longer one is called too large, after at most one buffer of overshoot; without a failure every input gets one of the two |
| Upload.ReadCandidate | backend/internal/service/blockchain_anchor_service.go:621-638 | Accepts exactly the lengths up to the limit, 50 MiB if it is not positive, and reads at most one byte more |
| Upload.ReadAllLimited | backend/internal/service/document_redact.go:451-466 | Accepts exactly the lengths that an upload with the same limit accepts, and reads at most one byte more |
| Redaction.ValidateRedactionRegions | backend/internal/service/document_redact.go:382-405 | Passes exactly one to fifty well-shaped regions |
| Redaction.CheckBounds | backend/internal/service/document_redact.go:238-247 | Passes exactly regions on page 1 within the image's absolute bounds |
| Redaction.Image.Fill | backend/internal/service/document_redact.go:421-430 | The rectangle takes the colour, every other pixel keeps its value |
| Redaction.ApplyRedactions | backend/internal/service/document_redact.go:416-432 | A new image in which exactly the pixels under some outward-rounded rectangle are black; the source is not changed |
| Redaction.OrderIsIrrelevant | backend/internal/service/document_redact.go:421-430 | The order and repetition of regions make no difference |
| Redaction.RedactionCovers | backend/internal/service/document_redact.go:407-432 | At origin (0, 0) a pixel is blackened if and only if its unit square overlaps a region |
| Redaction.CoversIffAtOrigin | backend/internal/service/document_redact.go:238-247 | Every region that passes the checks is fully covered if and only if the origin is (0, 0) or no region can pass |
| Access.LoadPermissions | backend/internal/authz/service.go:51-82 | The nested loops collect exactly the union of the roles' permissions; unknown roles add nothing |
| Access.DocumentDecision | backend/internal/authz/document_policy.go:30-97 | Who may do what with a document, on filtered and on full reads, in terms of roles, cases, memberships and shares alone |
| Access.CaseDecision | backend/internal/authz/case_policy.go:75-105 | Who may do what with a case, in the same terms |
| Access.SortedAdmin | backend/internal/authz/identity.go:32-59 | For catalog roles ordered by name the effective role is ADMIN if and only if the user is one |
| Access.CaseLayersAgree | backend/internal/authz/case_policy.go:75-105 | Row-level security never changes a decision on a case |
| Access.DocumentLayersAgreeIff | backend/internal/authz/document_policy.go:30-97 | Filtered reads and full tables decide alike on a document, except exactly when documents_select hides it from an owner (or from an ADMIN whose first role is another) |
| Access.SortedRolesLeaveOnlyOwners | backend/internal/authz/identity.go:32-59 | For sorted roles only an owner who is neither member nor recipient is affected |
| Access.RemovedCreatorIsHidden | backend/db/migrations/000004_document_sharing.up.sql:237-245 | A reachable state in which the layers differ: a case's creator who was removed as a member |
| Access.UnrelatedNeedShare | backend/internal/authz/share_policy.go:30-109 | A user without relationship may do exactly what a current share with them covers and their roles permit, never redact, share, upload or create a certificate |
| Access.ShareService.Create | backend/internal/service/document_share.go:149-241 | Succeeds exactly for a caller who may share and write it, a valid permission, reason and expiry, and another active user without an active share; it appends exactly the share asked for and keeps at most one active share per document and recipient |
| Access.ShareService.Revoke | backend/internal/service/document_share.go:287-341 | Succeeds exactly for a named active share of this document, by a caller who may share and write it, and then sets its revoker and nothing else |
| Access.CreatedShareGives | backend/internal/authz/share_policy.go:30-109 | Until it expires a created share gives an unrelated recipient exactly the actions of its permission that their roles permit |
| Access.RevokedShareGivesNothing | backend/internal/service/document_share.go:287-341 | After a revocation an unrelated recipient is denied every action on the document at every later time |
| Access.DelegationDepthOne | backend/internal/service/document_share.go:149-241 | Over every run every share was created by someone who at that moment was an ADMIN, or an owner or member of the case, never on the strength of another share |
| Access.CallKeepsShares | backend/db/migrations/000004_document_sharing.up.sql:91-93 | No call removes a share or changes what it grants, and a revocation is final |
| Access.OwnerAloneCannotShare | backend/db/migrations/000004_document_sharing.up.sql:131-144 | An owner who is no member and no ADMIN can never create a share |
| Access.ExpiredShareBlocks | backend/db/migrations/000004_document_sharing.up.sql:91-93 | An expired share that was not revoked gives no access and still blocks a new one for its recipient |

## Left out

- HTTP routing, middleware, handlers, server-sent events and logging: plumbing that no property depends on.
- PostgreSQL, Redis, MinIO, Asynq and Fabric internals: only guards, indexes, constraints, lock-to-commit, key expiry, at-least-once delivery and a serial ledger are modelled.
- SHA-256 (section 6.2 of FIPS 180-4) is an arbitrary function; AES-GCM, bcrypt, JWT and UUID generation are fresh or opaque values.
- Float formatting of JSON numbers is a parameter with the law that what is shown reads back as itself; jsonb's refusal of the NUL character, invalid UTF-8 and the decoder's nesting limit are not modelled.
- Case CRUD, status graph, timeline, certificates, filename cleaning, configuration and pagination would only add easier members.
- MIME detection and image codecs: an image is a grid of opaque colours, coordinates are reals, so NaN, infinity and floating-point rounding do not occur.
- One clock is used for database and process; the wording of error and failure texts is not modelled, except where code branches on it.
- VerificationJobs.VerificationTable.StartVerification: describes a call that nothing interleaves with; the window between the refused insert and the read of the active job is in VerificationRaces.StartFailsIff.
- Canonical.EventMetadataAlwaysCanonicalizes: NaN, infinities and Go values that are not JSON, which marshalling refuses, are not values of the model's type; the caller then gets an error and no row.
- ChainWriter.Append: the rows that others commit during the call are an input that is assumed linear; that they are is proved in ChainProtocol, where all writers are interleaved. A COMMIT whose reply is lost is there too.
- AnchorOutbox.VerifyCandidate: authorization, audit events and the stored object's tamper-status update are left out, and an int64 overflow of the largest limit plus one is not modelled.
- AnchorOutbox.Service.RunAnchor: describes a call that nothing interrupts; crashes and interleaving are in the state machine of the same module.
- Upload.StreamToStorage: the content type that sniffing returns is left out, and every error other than "too large" is one value.
- Fabric.RejectionIsUnavailable: the shim's own words behind "create composite key:" and the quoted number behind "invalid version" are cut off; the service sends neither a malformed key nor a malformed version.
- VerificationResults.HandlerArmsIff: an error that Asynq never retries (a malformed payload) names no job and is left out.
- Sessions.AuthService.Login: password check, throttling and profile loading are left out.
- Sessions.FamiliesArePaths: a storage failure between issuing and rotating is not part of a serial run; the interleaved machine covers it as an aborted call.
- Access.ShareService.Create: audit and notification effects are left out; a decision reads its tables at one instant.
