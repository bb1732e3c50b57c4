# A verified model of the two-ledger credential protocol

A university issues a certificate twice: as rows of a relational store and as a record of an append-only
Ethereum registry. The backend never writes to the registry. It only reads it, through an RPC client that can
fail, and it moves its own rows on when a read convinces it. This project models that protocol in Dafny,
together with the three guards that sit beside it: the retry loop and circuit breaker of the RPC client, the
login lockout, and the rotation of refresh tokens. It proves what these promise over every run.

## How it is built

| module | models |
|---|---|
| `Basics`, `HashCodec` | optional values and replies; hex text, 32-byte words, addresses |
| `Registry`, `ChainReader` | the `CertificateRegistry` contract, and what the read-only client makes of it |
| `Tables`, `UidAllocator`, `Database` | rows with their CHECK and UNIQUE constraints, queries, the UID allocator, and the session with its repositories |
| `Issuance`, `Revocation`, `QrCodes`, `Universities`, `Verification` | the service calls |
| `Protocol`, `Shapes`, `Invariants` | store and registry as one transition system, what each call can do to the tables, the invariant, and the proof that every event keeps it |
| `Agreement`, `Outcomes`, `Verdicts`, `Polling`, `Reasons` | the main results over whole runs |
| `Replies`, `Answers` | who may do what, which error each refusal gives and which rows a success changes; which certificate a verifier is told about |
| `Pacing`, `RpcGuard`, `Breaker` | the arithmetic of spaced attempts; retries and the circuit breaker, and their numbers |
| `Auth`, `AuthRuns`, `AuthReplies` | the two login transactions, lockout and token rotation, their runs, and what each call answers and writes |

Every service call exists twice. A *method* on the mutable `Session` does it step by step as the backend does,
including the writes that a later raise undoes. A *function* on plain tables says what the call leaves behind
and what it replies. The method is proved equal to the function on every input, the error paths included, and
the results about runs are about the functions. `CertificateChecks`, `TxChecks` and `UniversityChecks` are
subset types, so a model that wrote a row a CHECK constraint refuses would not verify. The constraints of
`verification_logs` are evaluated in SQL's three-valued logic.

An event of `Protocol` is one service call or one registry transaction. Each call that reads the chain carries
how its reads go (answer, outage, contract error) and which registry transactions are mined between the first
and the second read. A `Confirm` or `ConfirmRevoke` may see any receipt whatever: the receipt is not tied to
the certificate. A run is any finite sequence of events from the empty store and a freshly deployed contract.

Assumptions: a database transaction is one atomic step (a login is two, confirming and generating the QR code
are two); the chain is not reorganised; clocks do not run backwards; SHA-256 is opaque and no result needs
collision resistance; a random token is an argument, and one that repeats an old one is refused by the UNIQUE
constraint.

## Where the code differs from its own description

- The writes of FAILED on a reverted receipt or a mismatch, and of SUBMITTED on an outage, are followed by a
  raise inside `async with db.begin()`, which rolls them back. No committed certificate is ever FAILED
  (`Agreement.Lifecycle`), and failed attempts leave no trace (`Polling.FailuresLeaveNoTrace`).
- An upload that finds no certificate logs the verifier's UID hint as it is. The column holds 50 characters
  and cuts off blanks past them, so a hint that matches nothing and has anything but blanks after its fiftieth
  character ends in a database error instead of NOT_FOUND. That is the only way the log can refuse a row
  (`Verdicts.LogNeverRefuses`, an if-and-only-if; `Verdicts.LongHints` gives one hint on either side).
- A revocation reason that is the empty string is replaced by the default text (`Reasons.ReasonHandOff`). The
  request schema refuses reasons under ten characters (backend/schemas/certificate_schemas.py:232-236), so
  only a caller of the service itself can pass an empty one.
- `confirm_revocation` tests only `is_active`, so a certificate that was never CONFIRMED can become REVOKED
  when the chain says so (`Outcomes.RevokeOutcome`).
- The second login transaction tests the `is_active` that the first one read. A deactivated user can come to
  hold a live refresh token exactly when a login of that user was between the two transactions
  (`AuthRuns.DeactivationHolds`).
- `failed_login_attempts` is a SMALLINT. At 32767 the increment is refused and the lock with it. The bound on
  wrong passwords holds for every stretch in which no check finds the column full (`AuthRuns.LockoutBound`).
  Told from the state before the stretch, it holds if and only if the window is shorter than 600 seconds for
  each count from max(f, 4) to 32767, where f is the count at that moment (`AuthRuns.LockoutExact`). Every
  count is reachable with no lock in force (`AuthRuns.CounterFills`).

## Model

| member | source | states |
|---|---|---|
| Registry.ApplyKeepsLedger | blockchain/contracts/CertificateRegistry.sol:258-390 | no transaction changes a stored hash, issuer or issue time or undoes a revocation; the two counters stay the numbers of stored and of revoked records; revokedAt > 0 iff revoked |
| Registry.MineKeepsLedger | blockchain/contracts/CertificateRegistry.sol:329-390 | the same over any sequence of transactions by anyone |
| Registry.RevokeOnce | blockchain/test/unit/CertificateRegistry.revocation.test.js:42-170 | a revocation is accepted only from the record's original, still authorised issuer; after it every later one of that UID is refused and verification of any hash answers (false, REVOKED), whatever is mined between |
| Registry.StoreOutcome | blockchain/contracts/CertificateRegistry.sol:329-347 | a certificate is stored iff the sender is an authorised issuer, the uid is new and has 1 to 50 bytes and the hash is not all zero; then exactly that hash verifies, as ACTIVE, and every other answer of the contract is as before |
| Registry.RevokeOutcome | blockchain/contracts/CertificateRegistry.sol:367-378 | a certificate is revoked iff the sender is an authorised issuer, stored it, and it is not revoked; then no hash verifies, and every other answer is as before |
| Registry.RightsOutcome | blockchain/contracts/CertificateRegistry.sol:258-316 | who gains and who loses the right to issue, and who owns the contract, after each administrative transaction: only the owner decides, and no record changes |
| Registry.RecordsAreStored | blockchain/contracts/CertificateRegistry.sol:329-346 | every record of a deployed contract, whatever was mined, was stored by a transaction of an issuer authorised at that moment, with that hash and time |
| ChainReader.ReadsAgree | backend/blockchain/blockchain_service.py:135-246 | both reads of one chain state report the same status; a digest is valid iff the record is active and its hash, as text, is the digest |
| HashCodec.DecodeEncode | backend/utils/hash_service.py:95-124 | decoding the hex of any bytes gives the bytes back |
| HashCodec.EncodeDecode | backend/utils/hash_service.py:95-124 | encoding what a hex string decodes to gives its lower-case form without blanks |
| HashCodec.HashBytesBijection | backend/utils/hash_service.py:59-124 | text digests and 32-byte words correspond one to one, so comparing digests as text is comparing bytes32 |
| HashCodec.LowerWalletIsAddress | backend/services/certificate_issuance_service.py:346-348 | a wallet in any letter case, lower-cased, is a chain address |
| Tables.FirstIsNewest | backend/repositories/blockchain_transaction_repository.py:54-75 | the services' first match down the newest-first list is the last inserted row that matches |
| Tables.AmendMined | backend/repositories/blockchain_transaction_repository.py:78-116 | the assignments of a mined receipt, made one key after the other, overwrite every column a poll or failure can have touched |
| UidAllocator.LexIsNumeric | backend/repositories/certificate_repository.py:243-255 | on digit strings of one length text order is numeric order |
| UidAllocator.MaxIsLast | backend/repositories/certificate_repository.py:243-255 | the text maximum under a LIKE pattern is the UID committed last for that code and year |
| UidAllocator.FormatParses | backend/repositories/certificate_repository.py:250-255 | the part after the last dash of a formatted UID is the padded number |
| UidAllocator.NextIsCount | backend/repositories/certificate_repository.py:222-255 | the allocator answers one more than the number of certificates committed for that code and year |
| UidAllocator.NextIsFresh | backend/services/certificate_issuance_service.py:122-127 | the proposed UID collides with no certificate of any university or year |
| UidAllocator.ProposalFits | backend/alembic/versions/006_create_certificates.py:53 | a proposed UID passes the column's CHECK iff the code is alphanumeric, the year has four digits and the number is at most 99999 |
| UidAllocator.CommitKeepsAllocated | backend/services/certificate_issuance_service.py:116-164 | committing the proposal keeps every code's and every year's numbers 1, 2, ..., n |
| Database.Session.UpdateStatus | backend/repositories/blockchain_transaction_repository.py:78-116 | the row gets the status and each given column in turn; a violated CHECK, width, range or UNIQUE constraint refuses the whole write |
| Database.Session.CreateCertificate | backend/alembic/versions/006_create_certificates.py:30-62 | a row is inserted iff its CHECKs hold and neither its UID nor its hash is taken |
| Database.Session.UpdateBlockchainStatus | backend/repositories/certificate_repository.py:84-114 | only the status of the one certificate changes |
| Database.Session.Revoke | backend/repositories/certificate_repository.py:185-219 | all revocation columns, is_active and the status change together |
| Database.Session.CreateLog | backend/alembic/versions/009_create_verification_logs.py:20-55 | a log row is appended iff its CHECKs are not FALSE and the UID fits its column |
| Database.Session.IncrementScanCount | backend/repositories/qr_verification_repository.py:76-97 | one code's counter grows by one |
| Database.FirstMatching | backend/services/certificate_issuance_service.py:251-255 | the search loop over a certificate's transactions finds the newest match, or none |
| Issuance.UploadAndHashCertificate | backend/services/certificate_issuance_service.py:60-186 | the step-by-step upload commits and replies what `Issuance.Upload` says, errors included |
| Issuance.ConfirmBlockchainStorage | backend/services/certificate_issuance_service.py:188-400 | the step-by-step confirmation commits and replies what `Issuance.Confirm` says: nothing when it raises, SUBMITTED before mining, CONFIRMED after all checks |
| Issuance.ConfirmNotMined | backend/services/certificate_issuance_service.py:262-280 | a poll commits SUBMITTED and the hash on both rows, or nothing when the hash is taken |
| Issuance.ConfirmReverted | backend/services/certificate_issuance_service.py:283-299 | the FAILED writes of a reverted receipt are undone |
| Issuance.ConfirmRecord | backend/services/certificate_issuance_service.py:301-386 | record, hash and issuer checks in that order, then both rows CONFIRMED |
| Issuance.ConfirmUnreachable | backend/services/certificate_issuance_service.py:388-400 | the SUBMITTED write of an outage is undone |
| Revocation.InitiateRevocation | backend/services/certificate_revocation_service.py:52-189 | the checks in order, the pre-flight reads with their fallback, and the pending row that carries the reason |
| Revocation.ConfirmRevocation | backend/services/certificate_revocation_service.py:192-341 | the step-by-step confirmation of a revocation commits and replies what `Revocation.ConfirmRevoke` says |
| Revocation.FinishRevocation | backend/services/certificate_revocation_service.py:280-320 | the record must say REVOKED; then the reason is recovered from the open row and both rows change together |
| QrCodes.GenerateQrForCertificate | backend/services/qr_verification_service.py:28-96 | the old code is retired before the new one is inserted; a refused insert undoes both |
| Universities.RegisterUniversity | backend/services/university_service.py:24-56 | a new university is unverified and has no wallet; short codes are unique upper-cased, and blanks past the twentieth character are cut off |
| Universities.VerifyUniversity | backend/services/university_service.py:57-84 | verification happens once and changes nothing else |
| Universities.UpdateWalletAddress | backend/services/university_service.py:87-135 | the wallet is replaced, never removed, and unique as an exact string |
| Verification.VerifyByFileUpload | backend/services/verification_service.py:47-288 | the step-by-step upload check logs and replies what `Verification.VerifyUpload` says |
| Verification.JudgeUpload | backend/services/verification_service.py:156-252 | the decision matrix, reassigned as the reads come in: an outage at either read overwrites what the first one said |
| Verification.VerifyByQrToken | backend/services/verification_service.py:291-458 | the step-by-step scan counts, logs and replies what `Verification.VerifyQr` says |
| Verification.JudgeScan | backend/services/verification_service.py:360-419 | the chain's answer for the stored hash, and the database's view when there is none |
| Shapes.ConfirmShape | backend/services/certificate_issuance_service.py:228-400 | a confirmation that raises leaves every table as it was; otherwise it is a poll of one store row and its certificate, or their settlement after all checks |
| Shapes.ConfirmSucceeds | backend/services/certificate_issuance_service.py:228-386 | the exact condition of success, in terms of the tables and the two answers |
| Shapes.RevokeShape | backend/services/certificate_revocation_service.py:225-320 | a confirmation of a revocation that raises leaves every table as it was; otherwise it is a poll of the open row, or the revocation with its settlement |
| Shapes.StepFrame | backend/services/certificate_issuance_service.py:60-400 | which tables each kind of event can change at all |
| Invariants.ChainMoves | backend/services/certificate_issuance_service.py:232-386 | whatever the registry does, also between two reads of one call, checks made earlier stay true |
| Invariants.RecordMeansOnChain | backend/services/certificate_issuance_service.py:301-348 | a record that matched as lower-cased text is the certificate's digest on the chain, and one that says REVOKED is revoked there |
| Invariants.ConfirmKeeps | backend/services/certificate_issuance_service.py:232-400 | a confirmation keeps the invariant for every receipt and every record read from the chain |
| Invariants.RevokeKeeps | backend/services/certificate_revocation_service.py:225-341 | a confirmed revocation keeps the invariant, also for a certificate that is not CONFIRMED |
| Invariants.UploadKeeps | backend/services/certificate_issuance_service.py:100-186 | an upload keeps the invariant |
| Invariants.InitiateKeeps | backend/services/certificate_revocation_service.py:88-189 | an initiation keeps the invariant |
| Invariants.UniversitiesKeep | backend/services/university_service.py:57-135 | registering, verifying and setting a wallet keep the invariant |
| Agreement.UniversitiesKept | backend/services/university_service.py:24-135 | over whole runs no university is removed or renamed or loses a wallet it has set, and short codes and wallets, as exact strings, stay pairwise distinct |
| Invariants.ProposalIsFree | backend/alembic/versions/006_create_certificates.py:30-36 | the UNIQUE constraint on the UID never fires |
| Invariants.RetireClears | backend/services/qr_verification_service.py:59-89 | retiring leaves no active code of that certificate, so the code itself, not only the index, keeps one |
| Invariants.GenerateKeeps | backend/services/qr_verification_service.py:59-89 | generating a code keeps the invariant |
| Invariants.ScanLogKeeps | backend/services/verification_service.py:423-446 | counting and logging one scan keep counter and log in step |
| Invariants.StepKeeps | backend/services/certificate_issuance_service.py:232-386 | every event keeps the invariant, and the registry only grows |
| Invariants.RunKeeps | backend/services/certificate_issuance_service.py:232-386 | the invariant holds in every state of every run |
| Agreement.LedgerAgreement | backend/services/certificate_issuance_service.py:232-386 | in every reachable state a CONFIRMED certificate is on the chain under its UID with its digest, and has exactly one STORE_HASH row, CONFIRMED, with transaction hash and block number |
| Agreement.BecomesConfirmed | backend/services/certificate_issuance_service.py:340-386 | a certificate becomes CONFIRMED only by a confirmation for which the registry's issuer is the university's wallet of that moment |
| Agreement.IssuerMatchedAtConfirmation | backend/services/certificate_issuance_service.py:340-386 | every CONFIRMED certificate was confirmed by one event of the run, and the registry still names the wallet the university had then |
| Agreement.Lifecycle | backend/repositories/certificate_repository.py:185-219 | status never moves down, never is FAILED; inactive iff REVOKED iff all revocation fields are set; REVOKED means revoked on the chain; a revoked row never changes again |
| Agreement.UidsAreConsecutive | backend/repositories/certificate_repository.py:222-255 | in every run the numbers of one code and year are exactly 1, ..., n in commit order, and UIDs are distinct everywhere |
| Agreement.UploadOutcome | backend/services/certificate_issuance_service.py:100-186 | an otherwise admissible upload succeeds iff the code is alphanumeric, the year has four digits and fewer than 99999 were issued; else the tables are unchanged |
| Replies.UploadGuards | backend/services/certificate_issuance_service.py:96-135 | which error an upload gets, in the order of the checks: the university unverified, without a wallet, the student unknown, the digest stored already |
| Replies.UploadAdds | backend/services/certificate_issuance_service.py:137-175 | a success adds one PENDING certificate of the digest and one pending STORE_HASH row with the digest and the wallet; every other row stays |
| Replies.OneStoreRow | backend/services/certificate_issuance_service.py:247-255 | in every reachable state each certificate has exactly one STORE_HASH row, so the search for it cannot pick a wrong one |
| Replies.ConfirmGuards | backend/services/certificate_issuance_service.py:225-240 | a certificate that does not exist, is not the caller's or is past SUBMITTED is refused with its own error before anything is read |
| Replies.PollOutcome | backend/services/certificate_issuance_service.py:264-280 | in every reachable state a poll before mining answers SUBMITTED iff the hash is well formed and no other row has it; then exactly the certificate and its store row become SUBMITTED with that hash; otherwise IntegrityError and unchanged tables |
| Replies.ConfirmOutageOutcome | backend/services/certificate_issuance_service.py:388-400 | an outage at either read commits nothing and is reported as such, unless the certificate is PENDING and the hash cannot be written |
| Replies.ConfirmFaultOutcome | backend/blockchain/blockchain_service.py:393-398 | a contract error at either read escapes and commits nothing |
| Replies.ConfirmRevertedOutcome | backend/services/certificate_issuance_service.py:282-299 | a reverted receipt is reported iff what it tries to write fits the table, else IntegrityError; nothing is committed either way |
| Replies.CrossCheckOutcome | backend/services/certificate_issuance_service.py:301-386 | with a mined receipt and the second read answered: record missing, wrong digest, wrong wallet, in this order, is the error; with none of them exactly the two rows change, to the receipt's columns and the registry's time, iff they fit the table |
| Agreement.GenerateOutcome | backend/services/qr_verification_service.py:46-96 | in every run QR generation for a CONFIRMED certificate fails only on the token's length or uniqueness, and the new code is the active one |
| Replies.GenerateGuards | backend/services/qr_verification_service.py:60-65 | the certificate must exist and be CONFIRMED |
| Replies.GenerateAdds | backend/services/qr_verification_service.py:67-89 | in every reachable state a success retires every earlier code of the certificate, adds one active unscanned code without an expiry, and changes nothing else |
| Replies.RegisterOutcome | backend/services/university_service.py:24-56 | a registration succeeds iff the upper-cased code is new, has two characters or more and only blanks after its twentieth, and what is kept is new; the row it adds; the error of each refusal |
| Replies.VerifyOutcome | backend/services/university_service.py:57-84 | a university is verified iff it exists and is not yet; only its flag changes |
| Replies.SetWalletOutcome | backend/services/university_service.py:87-135 | a wallet is set iff the caller is staff of that university, it is verified, no other has that exact address and it is 0x and forty hexadecimal digits; only that row changes; the error of each refusal |
| Verdicts.TxHashLogged | backend/services/verification_service.py:461-494 | for a certificate whose store transaction is settled both look-ups find that one row, so hash and block number are real |
| Verdicts.UploadIsExact | backend/services/verification_service.py:83-177 | CONFIRMED and chain reachable: REVOKED iff the registry says revoked, AUTHENTIC iff active and the digests agree, TAMPERED iff active and they differ |
| Answers.UploadIsJudged | backend/services/verification_service.py:86-252 | in every reachable state an upload is answered about the certificate its hint names, or if none is named, the one with its digest, and the verdict follows from that row's status, the registry, the digest and how the reads go: an altered file that names its UID is TAMPERED with the chain up |
| Answers.UploadNotFound | backend/services/verification_service.py:87-120 | NOT_FOUND iff no certificate has the hinted UID or the digest, and the hint has only blanks after its fiftieth character |
| Answers.UploadIsShown | backend/services/verification_service.py:156-288 | in every reachable state an answer shows both digests and a match only for a CONFIRMED certificate the chain does not call revoked; a proof comes with it iff the chain was asked and answered, and quotes the registry's issuer and time and the one settled row |
| Answers.UploadIsLogged | backend/services/verification_service.py:122-286 | an answered upload adds exactly one log row: who asked, about which certificate, both digests and whether they agree, the answer, whether the chain was asked, and the settled transaction's hash; nothing else changes |
| Answers.OtherUploads | backend/services/verification_service.py:100-120 | an upload that raises logs nothing; one that finds nothing logs the question |
| Verdicts.UploadProof | backend/services/verification_service.py:156-208 | the proof quotes the registry's issuer and time and the transaction hash and block of the one settled row; the evidence is the on-chain hash |
| Verdicts.UnhintedNeverTampered | backend/services/verification_service.py:87-100 | an upload whose hint names no certificate is never TAMPERED, with or without the chain |
| Verdicts.DegradedUploadRefines | backend/services/verification_service.py:161-252 | a chain-less answer is never AUTHENTIC; TAMPERED implies TAMPERED or REVOKED online, PENDING_CHAIN on a CONFIRMED certificate AUTHENTIC or REVOKED, and REVOKED and NOT_FOUND stay |
| Verdicts.RevocationIsFinal | backend/services/verification_service.py:87-177 | once a certificate is revoked in either ledger, no later upload of its file is AUTHENTIC whatever UID is named, although one hash may be stored under two UIDs |
| Verdicts.ScanRevocationIsFinal | backend/services/verification_service.py:351-419 | once a certificate is revoked in either ledger, no later scan of any of its codes is AUTHENTIC, and the answer is REVOKED whenever the chain can be read or the database knows |
| Verdicts.ScanIsExact | backend/services/verification_service.py:323-419 | a scan is never TAMPERED, and with the chain reachable an accepted token is answered REVOKED or AUTHENTIC exactly as the registry says |
| Answers.ScanIsJudged | backend/services/verification_service.py:351-419 | in every reachable state a scan of an active, unexpired code is answered about the code's certificate: REVOKED or AUTHENTIC as the registry says when it can be read, PENDING_CHAIN when it cannot, REVOKED when the row says so |
| Answers.ScanNotFound | backend/services/verification_service.py:324-358 | NOT_FOUND iff no code has that token, is active, unexpired and has its certificate |
| Answers.UnusableScan | backend/services/verification_service.py:329-358 | without such a code nothing is counted or logged |
| Answers.ScanIsLogged | backend/services/verification_service.py:423-446 | an answered scan adds one to its code's counter and exactly one log row with code, certificate, answer and the settled transaction's hash; one that raises changes nothing |
| Answers.ReplacedForGood | backend/services/qr_verification_service.py:67-74 | after a code has been generated for a certificate, a scan of any earlier code of it is NOT_FOUND in every later state |
| Answers.ScanProof | backend/services/verification_service.py:381-394 | the proof of a scan quotes the registry's issuer and time and the transaction hash and block of the one settled row |
| Verdicts.DegradedScanRefines | backend/services/verification_service.py:364-419 | the same refinement for scans |
| Verdicts.LogNeverRefuses | backend/alembic/versions/009_create_verification_logs.py:20-55 | the log's constraints refuse no row of either flow, except a NOT_FOUND upload whose hint has something other than blanks after its fiftieth character |
| Verdicts.LongHints | backend/services/verification_service.py:100-120 | fifty letters and one more are refused; fifty letters and a blank are answered NOT_FOUND and logged without the blank |
| Verdicts.LogTells | backend/alembic/versions/009_create_verification_logs.py:46-54 | every committed log row: AUTHENTIC uploads carry equal hashes, hash_match TRUE and a chain check, scans are never TAMPERED and carry their code, the empty transaction hash is never logged |
| Verdicts.QrConservation | backend/services/verification_service.py:423-446 | at most one active code per certificate, codes only for certificates that were confirmed and are on the chain, and a counter equals the log rows carrying the code |
| Outcomes.ConfirmOutcome | backend/services/certificate_issuance_service.py:228-386 | in every run an answered confirmation succeeds iff the certificate is the caller's and unconfirmed, the receipt is a success, the registry at the second read holds its digest with the university's wallet as issuer, and hash and receipt fit the transaction table |
| Outcomes.RevokeOutcome | backend/services/certificate_revocation_service.py:225-320 | an answered revocation succeeds iff the certificate is the caller's and active, the receipt is a success, the registry says revoked, and the receipt fits the open row if there is one; neither CONFIRMED nor an initiation is needed |
| Outcomes.RevocationWrites | backend/repositories/certificate_repository.py:185-219 | a successful revocation writes who and when on the one certificate and the receipt, with the registry's revocation time, on the open row; nothing else changes |
| Outcomes.CanConfirm | backend/services/certificate_issuance_service.py:228-386 | from every reachable state with an unconfirmed certificate of an authorised university, mining its store transaction, even between the two reads, and confirming makes it CONFIRMED |
| Outcomes.ConfirmedIsReachable | backend/services/certificate_issuance_service.py:60-386 | whoever deploys the registry, some run from the empty store confirms a certificate |
| Polling.FailuresLeaveNoTrace | backend/services/certificate_issuance_service.py:257-400 | after any failed attempts (polls, reverts, mismatches, outages, by anyone) the next attempt succeeds iff it would have without them, and leaves the same tables |
| Polling.ConfirmationForgets | backend/repositories/blockchain_transaction_repository.py:78-116 | over whole runs with everything else interleaved, a successful confirmation leaves the certificate and its store row as if nothing had happened since any earlier moment |
| Reasons.ReasonHandOff | backend/services/certificate_revocation_service.py:235-310 | the reason recorded is the one of the most recent accepted initiation; the default text iff there was none or it was empty |
| Reasons.RunCarries | backend/services/certificate_revocation_service.py:166-182 | while a certificate is active its newest open REVOKE_HASH row carries that reason |
| Reasons.PreflightIsContract | backend/services/certificate_revocation_service.py:112-163 | the pre-flight accepts iff the contract would accept the university's revocation in the chain state read |
| Replies.InitiateOutcome | backend/services/certificate_revocation_service.py:88-189 | in every state an initiation is accepted iff the certificate exists, is the caller's, active and CONFIRMED, the university has a wallet, and the pre-flight is absent, cut off by an outage at either read, or finds the wallet authorised and an unrevoked record issued by it; then one pending REVOKE_HASH row with wallet and reason is added; otherwise nothing changes |
| Replies.InitiateGuards | backend/services/certificate_revocation_service.py:90-120 | which error each refusal on the caller's side gives, in the order of the checks |
| Replies.PreflightRefusals | backend/services/certificate_revocation_service.py:122-153 | which error each objection of the registry gives: unauthorised wallet, missing record, revoked record, another issuer, contract error |
| Replies.RevokeGuards | backend/services/certificate_revocation_service.py:225-233 | a certificate that does not exist, is not the caller's or is inactive is refused with its own error |
| Replies.RevokePollOutcome | backend/services/certificate_revocation_service.py:253-264 | a poll answers SUBMITTED iff the hash can be written on the latest open REVOKE_HASH row, if there is one; then that row alone changes |
| Replies.RevokeOutageOutcome | backend/services/certificate_revocation_service.py:322-341 | an outage at either read or a contract error commits nothing, and which error is raised |
| Replies.RevokeRevertedOutcome | backend/services/certificate_revocation_service.py:266-278 | a reverted receipt is never a success and commits nothing |
| Replies.RevokeCheckOutcome | backend/services/certificate_revocation_service.py:280-320 | with a mined receipt and the second read answered: refused iff the record is missing, not revoked, or the receipt does not fit the open row, each with its error |
| Pacing.PacedBound | backend/blockchain/blockchain_service.py:448-468 | things let through freely up to a threshold and then spaced by a pause number at most threshold + floor(window / pause) in any window |
| RpcGuard.BlockchainService.CheckCircuitBreaker | backend/blockchain/blockchain_service.py:448-477 | refuses iff five failures in a row are on record and the last is under 60 s old |
| RpcGuard.BlockchainService.RecordFailure | backend/blockchain/blockchain_service.py:479-489 | one failure more, stamped now |
| RpcGuard.BlockchainService.TryOnce | backend/blockchain/blockchain_service.py:379-440 | one round: the attempt, what its outcome does to counter and clock, and for a dropped one the back-off and the breaker's verdict |
| RpcGuard.BlockchainService.ExecuteWithRetry | backend/blockchain/blockchain_service.py:355-446 | the loop with its two fields and the clock equals the recursive `RpcGuard.Execute`: state, reply and the attempts made |
| RpcGuard.RetryRefines | backend/blockchain/blockchain_service.py:376-446 | for every limit and outcome sequence the reply is that of the first outcome that is not retried, the exhaustion error after the limit, or the breaker's error at exactly the attempt where it closes; at most limit attempts; the counter's new value |
| RpcGuard.AnswersAreReturned | backend/blockchain/blockchain_service.py:376-446 | a service gets a value iff the last attempt made returned it and all before it were dropped |
| RpcGuard.SleepBound | backend/blockchain/blockchain_service.py:415-436 | the back-offs of a call add up to at most 2^(limit-1) - 1 seconds |
| RpcGuard.AsConfigured | backend/core/constants.py:35-37 | with the configured limit, at most three attempts and three seconds of back-off |
| Breaker.AttemptIff | backend/blockchain/blockchain_service.py:448-468 | a call makes an attempt iff fewer than five failures are on record or the last is at least 60 s old; otherwise it ends with the breaker's error and nothing changes |
| Breaker.DroppedIsRepeated | backend/blockchain/blockchain_service.py:376-446 | while fewer than five failures are on record a dropped attempt is repeated: the first one not dropped is the reply, and how many attempts were made and failures counted |
| Breaker.FifthFailureEnds | backend/blockchain/blockchain_service.py:415-436 | once five are on record a dropped attempt is the last of its call, unless the back-off outlasts the 60 s; the half-open case included |
| Breaker.BackoffDoubles | backend/blockchain/blockchain_service.py:416-417 | one, two, four seconds, and double each time |
| Breaker.AttemptsAreSpaced | backend/blockchain/blockchain_service.py:376-436 | the first attempt starts at once, and each further one exactly the back-off and what the sleep overruns after the one before it ended |
| Breaker.ConfiguredLimit | backend/core/constants.py:35 | the configured limit is used up: three dropped attempts, three seconds of back-off and the exhaustion error while fewer than three failures are on record |
| RpcGuard.CounterIsTrailing | backend/blockchain/blockchain_service.py:379-489 | in every run the counter is the length of the trailing run of failed attempts and every attempt past five of them waited 60 s |
| RpcGuard.RateBound | backend/blockchain/blockchain_service.py:448-489 | in every run, attempts without a success that start within W seconds number at most 5 + floor(W / 60) |
| Breaker.RateBoundIsReached | backend/core/constants.py:34-37 | that bound is tight: for every window W and retry limit some run has exactly 5 + floor(W / 60) failing attempts in it |
| Auth.FindByHash | backend/repositories/refresh_token_repository.py:76-95 | finds a stored token with that hash, or there is none |
| Auth.Session.IncrementFailedAttempts | backend/repositories/user_repository.py:77-100 | the counter grows by one, or the column is full and nothing changes |
| Auth.Session.Revoke | backend/repositories/refresh_token_repository.py:98-124 | one token is revoked and its link set as given |
| Auth.Session.DeleteExpired | backend/repositories/refresh_token_repository.py:157-175 | exactly the expired and revoked rows are deleted, and links to them are cleared |
| Auth.CheckCredentials | backend/services/auth_service.py:187-212 | the first login transaction: what it commits although the caller sees an error |
| Auth.CompleteLogin | backend/services/auth_service.py:215-247 | the second login transaction, on the user as read by the first |
| Auth.RefreshAccessToken | backend/services/auth_service.py:264-337 | create then revoke, or nothing |
| Auth.LogoutToken | backend/services/auth_service.py:345-364 | a live token is revoked without a link; any other call changes nothing |
| Auth.ChangePasswordOf | backend/services/user_service.py:72-109 | all tokens of the user are revoked, or nothing happens |
| Auth.DeactivateAccount | backend/services/user_service.py:112-137 | the user becomes inactive and all tokens are revoked, or nothing happens |
| AuthReplies.CheckOutcome | backend/services/auth_service.py:187-212 | a right password on an unlocked account goes through; a wrong one adds one to the counter and from the fifth on locks for 600 s; a locked account, an unknown user and a full column are refused unchanged, each with its error |
| AuthReplies.CompleteOutcome | backend/services/auth_service.py:215-247 | the second transaction succeeds iff the user was read as active and the hash is unused; the one token it adds; only that user's counter is reset |
| AuthReplies.SignInGoesThrough | backend/services/auth_service.py:187-247 | from every state a right password on an unlocked, active account leads to one new live token that expires its lifetime after the login ended |
| AuthReplies.RefreshOutcome | backend/services/auth_service.py:290-333 | in every run token k is exchanged iff it is not revoked or past its expiry, its user is active and the new hash is unused; the old row is revoked and linked, the new one has the expiry given; no other row changes; the error of each refusal |
| AuthReplies.UnknownToken | backend/services/auth_service.py:293-295 | a hash that no token has is neither exchanged nor logged out |
| AuthReplies.LogoutOutcome | backend/services/auth_service.py:358-364 | in every run a logout revokes exactly the token presented |
| AuthReplies.ChangePasswordOutcome | backend/services/user_service.py:72-109 | only the user with the old password; every token of that user is revoked and keeps its link; no other row changes |
| AuthReplies.DeactivateOutcome | backend/services/user_service.py:112-137 | only the user or a super admin; the user becomes inactive and every token of the user is revoked; no other row changes |
| AuthReplies.CleanUpOutcome | backend/repositories/refresh_token_repository.py:157-175 | a clean-up deletes exactly the revoked rows past their expiry, and of the others changes only links to deleted ones, to none |
| AuthReplies.TokenIsIssued | backend/services/auth_service.py:232-333 | every token of a run was issued by one of its completed logins or exchanges, with that user, hash and lifetime, and keeps them |
| AuthReplies.ExchangedInTime | backend/services/auth_service.py:300-301 | so in every run a token is exchanged, if at all, within its lifetime from the event that issued it |
| AuthRuns.LocksOnlyGrow | backend/services/auth_service.py:193-204 | in every run five failures mean a lock time is set, and lock times never decrease and never vanish |
| AuthRuns.LockHolds | backend/services/auth_service.py:193-195 | until the time a lock was set to, whatever happens meanwhile, every sign-in of that user is refused and uncounted, right password or not |
| AuthRuns.LockoutBound | backend/services/auth_service.py:187-212 | with logins interleaved arbitrarily, wrong-password checks of one user within W seconds, without a reset and none of them finding the counter's column full, number at most 5 + floor(W / 600) |
| AuthRuns.LockoutExact | backend/alembic/versions/003_create_users.py:36-37 | from a reachable state with count f, that bound holds for every stretch without a reset in a window of W seconds if and only if W < 600 * (32767 - max(f, 4)) |
| AuthRuns.HammerExact | backend/repositories/user_repository.py:77-100 | in a reachable state at most five wrong checks get through at one instant if and only if the column is not full or a lock is in force |
| AuthRuns.CounterFills | backend/services/auth_service.py:193-204 | every count up to 32767 is reached from the start with no lock in force |
| AuthRuns.FullCounterNeverLocks | backend/alembic/versions/003_create_users.py:36-37 | with the column full and no lock in force, any number of wrong checks changes nothing and takes no time |
| AuthRuns.RunChains | backend/repositories/refresh_token_repository.py:98-175 | every run keeps the links forward, within one user, injective, from revoked tokens only, clean-up included |
| AuthRuns.FollowGoesForward | backend/services/auth_service.py:310-333 | following replacements never returns, stays with one user and starts at a revoked token |
| AuthRuns.ChainsAreLines | backend/services/auth_service.py:310-333 | two tokens that lead to a common one lie on one line |
| AuthRuns.TokenChains | backend/services/auth_service.py:310-333 | in every run a live token is the last of its chain and the only live one |
| AuthRuns.ExchangedOnce | backend/services/auth_service.py:290-333 | over a whole run no token is exchanged twice |
| AuthRuns.RefreshConserves | backend/services/auth_service.py:310-333 | an exchange keeps every user's number of live tokens |
| AuthRuns.RefreshLinks | backend/services/auth_service.py:319-333 | the exchanged token was live, is revoked and linked to the new live token of the same user; no other row changes |
| AuthRuns.LiveBalances | backend/services/auth_service.py:215-364 | the live tokens of a user after any event are exactly those before, plus one for a completed login, swapped by an exchange, minus the one logged out, or none after a password change or deactivation |
| AuthRuns.LoginResets | backend/repositories/user_repository.py:103-121 | a completed login sets its user's counter to zero and changes nothing else about any user, not even a lock |
| AuthRuns.NeverExchanged | backend/services/auth_service.py:297-308 | however a run goes on, an expired token and any token of a deactivated user are never exchanged |
| AuthRuns.CleanUpKeepsLive | backend/repositories/refresh_token_repository.py:157-175 | clean-up deletes no live token |
| AuthRuns.LiveIsNewer | backend/services/user_service.py:97-137 | a token live after a password change or a deactivation was created after it |
| AuthRuns.DeactivationHolds | backend/services/user_service.py:128-137 | a deactivated user can hold a live token again iff a login that read the user as active was under way |

## Left out

- Database.Session.CreateCertificate: the CHECK constraints on names, dates and the file, whose columns are not modelled.
- Database.Session.IncrementScanCount: the counter's INTEGER column, full after two thousand million scans.
- Database.Session.UpdateStatus: a transaction hash with blanks after it is refused, although the column would cut them off; the request schemas refuse it first.
- Database.Session.CreateLog: snapshot, timing, address and agent columns of the log, which no property depends on.
- Issuance.UploadAndHashCertificate: whether the student exists is a parameter, and descriptive columns of the certificate are not modelled.
- QrCodes.GenerateQrForCertificate: URL and deactivation columns; expiry is never set by the code and is kept only because scans read it; a token is url-safe, so blanks past its column's width do not arise.
- Universities.RegisterUniversity: uniqueness of the university's name, and its contact columns.
- Universities.UpdateWalletAddress: uniqueness is by exact string as in the code; nothing is claimed about wallets that differ only in letter case.
- Auth.CheckCredentials: bcrypt's verdict and the e-mail look-up are parameters; two of these transactions inside each other are not modelled.
- Auth.CompleteLogin: access tokens (JWT) and last-login columns.
- Auth.ChangePasswordOf: the new password hash itself.
- Rows are table positions, so "newest first" is insertion order; time stamps of creation and update are not columns of the model.
- The registry is a value with a transition function, since it is not code of the backend; events, gas and block numbers of the chain are not modelled.
- A checksummed address is the lower-case address with arbitrary letters capitalised, which is all the lower-cased comparisons need.
- Malformed arguments that the RPC client rejects before calling (hash or address format) cannot occur with stored digests and wallets.
- Liveness: a re-initiation can make the unique transaction hash block a confirmation; only safety is proved.
- Concurrent access inside one transaction, isolation anomalies, chain reorganisations.
- Student-side look-ups, dashboards, pagination, routers, schemas, middleware, rate limiting, PDF and QR images, the React client.
