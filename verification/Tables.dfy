// The relational store: rows, constraints and look-ups of backend/models and backend/repositories.
// A table is the sequence of its rows in insertion order and the index of a row is its primary key.
module Tables {
  import opened Basics
  import opened HashCodec
  import opened ChainReader

  datatype BlockchainStatus = Pending | Submitted | Confirmed | Failed | Revoked

  datatype TransactionStatus = TxPending | TxSubmitted | TxConfirmed | TxFailed | TxReplaced

  datatype TransactionType = StoreHash | RevokeHash | AuthorizeIssuer

  datatype VerificationMethod = FileUpload | QrScan | ManualIdLookup

  datatype VerificationResult = Authentic | Tampered | RevokedResult | NotFound | PendingChain | Error

  const SHORT_CODE_WIDTH: nat := 20

  datatype UniversityRow = UniversityRow(shortCode: string, wallet: Option<string>, isVerified: bool)

  /** A row with the CHECK constraints of its table: writing one means showing that they hold. */
  type University = u: UniversityRow | UniversityChecks(u) witness UniversityRow("AA", None, false)

  datatype CertificateRow = CertificateRow(
    uid: string,
    university: nat,
    hash: Hash,
    status: BlockchainStatus,
    isActive: bool,
    revocationReason: Option<string>,
    revokedBy: Option<nat>,
    revokedAt: Option<nat>)

  type Certificate = c: CertificateRow | CertificateChecks(c)
    witness CertificateRow("A-2025-00001", 0, seq(64, i => '0'), Pending, true, None, None, None)

  datatype TxData = TxData(
    certificate: nat,
    txType: TransactionType,
    fromAddress: string,
    hashStored: Option<Hash>,
    status: TransactionStatus,
    txHash: Option<string>,
    blockNumber: Option<nat>,
    blockHash: Option<HexText>,
    gasUsed: Option<nat>,
    gasPrice: Option<nat>,
    fee: Option<nat>,
    confirmedAt: Option<nat>,
    errorMessage: Option<string>)

  type TxRow = r: TxData | TxChecks(r)
    witness TxData(0, StoreHash, "0x" + seq(40, i => '0'), None, TxPending, None, None, None, None, None, None, None,
                   None)

  datatype Qr = Qr(certificate: nat, token: string, isActive: bool, scans: nat, expiresAt: Option<nat>)

  datatype LogRow = LogRow(
    certificate: Option<nat>,
    uidQueried: Option<string>,
    verifier: Option<nat>,
    qr: Option<nat>,
    verificationMethod: VerificationMethod,
    result: VerificationResult,
    submittedHash: Option<string>,
    storedHash: Option<string>,
    hashMatch: Option<bool>,
    blockchainVerified: bool,
    txHash: Option<string>)

  datatype Tables = Tables(
    unis: seq<University>,
    certs: seq<Certificate>,
    txs: seq<TxRow>,
    qrs: seq<Qr>,
    logs: seq<LogRow>)

  datatype Error =
    | UniversityNotFound | UniversityAlreadyVerified | UnverifiedUniversity | MissingWalletAddress
    | UserNotFound | DuplicateCertificate | CertificateNotFound | OwnershipViolation
    | CertificateNotConfirmable | UnconfirmedCertificate | CertificateAlreadyRevoked
    | TransactionReverted | RecordMissing | RecordMismatch | IssuerMismatch | IssuerNotAuthorized
    | NotRevokedOnChain | BlockchainUnavailable | BlockchainContractError
    | Conflict | IntegrityError   // a CHECK or UNIQUE constraint of the database

  datatype Reply<+T> = Ok(value: T) | Raise(error: Error)

  datatype Staff = Staff(id: nat, university: nat)

  // ----- Constraints -----

  predicate IsDigit(c: char) { '0' <= c <= '9' }

  predicate IsCodeChar(c: char) { 'A' <= c <= 'Z' || IsDigit(c) }

  /** ^[A-Z0-9]+-[0-9]{4}-[0-9]{5}$ in a column of 50 characters. */
  predicate IsUid(s: string) {
    && 12 <= |s| <= 50
    && s[|s| - 6] == '-' && s[|s| - 11] == '-'
    && (forall i :: |s| - 5 <= i < |s| ==> IsDigit(s[i]))
    && (forall i :: |s| - 10 <= i < |s| - 6 ==> IsDigit(s[i]))
    && (forall i :: 0 <= i < |s| - 11 ==> IsCodeChar(s[i]))
  }

  /** A text longer than its VARCHAR is refused, unless all that is too much is blanks, which are cut off. */
  predicate Fits(s: string, width: nat) {
    forall i :: width <= i < |s| ==> s[i] == ' '
  }

  function Clip(s: string, width: nat): (r: string)
    ensures |r| <= width
    ensures Fits(s, width) ==> r <= s && forall i :: |r| <= i < |s| ==> s[i] == ' '
  {
    if |s| <= width then s else s[..width]
  }

  predicate CodeTaken(unis: seq<University>, code: string) {
    exists u :: 0 <= u < |unis| && unis[u].shortCode == code
  }

  predicate WalletTaken(unis: seq<University>, wallet: string, holder: nat) {
    exists u :: 0 <= u < |unis| && u != holder && unis[u].wallet == Some(wallet)
  }

  /** The row as the table keeps it. */
  function ClippedUni(u: UniversityRow): UniversityRow {
    u.(shortCode := Clip(u.shortCode, SHORT_CODE_WIDTH))
  }

  predicate UniversityChecks(u: UniversityRow) {
    && 2 <= |u.shortCode| <= 20
    && (u.wallet.Some? ==> IsWallet(u.wallet.value))
  }

  /** chk_certificates_uid_format, _revocation_consistency and _blockchain_status_revoked_sync. */
  predicate CertificateChecks(c: CertificateRow) {
    && IsUid(c.uid)
    && (if c.isActive then c.revocationReason.None? && c.revokedBy.None? && c.revokedAt.None?
        else c.revocationReason.Some? && c.revokedBy.Some? && c.revokedAt.Some?)
    && (c.isActive || c.status.Revoked?)
  }

  const MAX_BIGINT: nat := 0x7fff_ffff_ffff_ffff
  const NUMERIC_30: nat := 1_000_000_000_000_000_000_000_000_000_000

  /** The CHECK constraints and the column widths of blockchain_transactions. */
  predicate TxChecks(row: TxData) {
    && IsWallet(row.fromAddress)
    && (row.txHash.Some? ==> IsTxHash(row.txHash.value))
    && (row.blockNumber.Some? ==> 0 < row.blockNumber.value <= MAX_BIGINT)
    && (row.blockHash.Some? ==> |row.blockHash.value| <= 66)
    && (row.gasUsed.Some? ==> 0 < row.gasUsed.value <= MAX_BIGINT)
    && (row.gasPrice.Some? ==> row.gasPrice.value < NUMERIC_30)
    && (row.fee.Some? ==> row.fee.value < NUMERIC_30)
    && (row.status.TxConfirmed? ==> row.blockNumber.Some? && row.confirmedAt.Some?)
    && (if row.gasUsed.None? then row.fee.None? else row.gasPrice.Some? && row.fee.Some?)
  }

  /** CHECK constraints plus the UNIQUE constraint on tx_hash, for writing `row` as row `i`. */
  predicate TxAccepts(txs: seq<TxRow>, i: nat, row: TxData) {
    && TxChecks(row)
    && (row.txHash.Some? ==> forall j :: 0 <= j < |txs| && j != i ==> txs[j].txHash != row.txHash)
  }

  /** UNIQUE token and the partial unique index uq_qr_one_active_per_certificate. */
  predicate QrAccepts(qrs: seq<Qr>, qr: Qr) {
    && 32 <= |qr.token| <= 128
    && (forall j :: 0 <= j < |qrs| ==> qrs[j].token != qr.token)
    && (qr.isActive ==> forall j :: 0 <= j < |qrs| ==> !(qrs[j].isActive && qrs[j].certificate == qr.certificate))
  }

  function RevokedCert(cert: Certificate, reason: string, admin: nat, now: nat): Certificate {
    cert.(status := Revoked, isActive := false, revocationReason := Some(reason), revokedBy := Some(admin),
          revokedAt := Some(now))
  }

  // ----- The CHECK constraints of verification_logs, in SQL's three-valued logic -----

  datatype Truth = True | False | Null

  function Is(b: bool): Truth { if b then True else False }

  function Nullable(b: Option<bool>): Truth {
    match b
    case None => Null
    case Some(x) => Is(x)
  }

  function Or(a: Truth, b: Truth): Truth {
    if a == True || b == True then True else if a == Null || b == Null then Null else False
  }

  function And(a: Truth, b: Truth): Truth {
    if a == False || b == False then False else if a == Null || b == Null then Null else True
  }

  /** A regular expression match; NULL on a NULL text. */
  function TextMatches(s: Option<string>, fits: bool): Truth {
    if s.None? then Null else Is(fits)
  }

  /** A CHECK refuses a row only when it is FALSE; NULL passes. */
  predicate Passes(check: Truth) { check != False }

  predicate LogChecks(r: LogRow) {
    var submitted := Is(r.submittedHash.Some?);
    var stored := Is(r.storedHash.Some?);
    && Passes(Or(Is(r.submittedHash.None?),
                 TextMatches(r.submittedHash, r.submittedHash.Some? && IsHash(r.submittedHash.value))))
    && Passes(Or(Is(r.storedHash.None?), TextMatches(r.storedHash, r.storedHash.Some? && IsHash(r.storedHash.value))))
    && Passes(Or(Is(r.txHash.None?), TextMatches(r.txHash, r.txHash.Some? && IsTxHash(r.txHash.value))))
    && Passes(Or(Is(r.hashMatch.None?), And(submitted, stored)))
    && Passes(Or(Is(r.result != Tampered), And(submitted, stored)))
    && Passes(Or(Is(r.result != Authentic), Nullable(r.hashMatch)))
    && Passes(Or(Is(r.verificationMethod != QrScan), Is(r.qr.Some?)))
  }

  const UID_QUERIED_WIDTH: nat := 50

  /** CHECK constraints and the width of certificate_uid_queried. */
  predicate LogAccepts(r: LogRow) {
    LogChecks(r) && (r.uidQueried.Some? ==> Fits(r.uidQueried.value, UID_QUERIED_WIDTH))
  }

  /** The row as the table keeps it. */
  function Stored(r: LogRow): LogRow {
    if r.uidQueried.None? then r else r.(uidQueried := Some(Clip(r.uidQueried.value, UID_QUERIED_WIDTH)))
  }

  // ----- update_status -----

  /** One entry of the `block_data` dictionary. */
  datatype Assignment =
    | TxHashIs(text: string)
    | BlockNumberIs(number: nat)
    | BlockHashIs(hex: HexText)
    | GasUsedIs(number: nat)
    | GasPriceIs(number: nat)
    | FeeIs(number: nat)
    | ConfirmedAtIs(time: nat)

  function Assign(row: TxData, a: Assignment): TxData {
    match a
    case TxHashIs(x) => row.(txHash := Some(x))
    case BlockNumberIs(n) => row.(blockNumber := Some(n))
    case BlockHashIs(x) => row.(blockHash := Some(x))
    case GasUsedIs(n) => row.(gasUsed := Some(n))
    case GasPriceIs(n) => row.(gasPrice := Some(n))
    case FeeIs(n) => row.(fee := Some(n))
    case ConfirmedAtIs(t) => row.(confirmedAt := Some(t))
  }

  function AssignAll(row: TxData, data: seq<Assignment>): TxData {
    if data == [] then row else Assign(AssignAll(row, data[..|data| - 1]), data[|data| - 1])
  }

  function Amend(row: TxData, status: TransactionStatus, data: seq<Assignment>): TxData {
    AssignAll(row.(status := status), data)
  }

  /** The table after update_status on an optional row; None when a constraint refuses the write. */
  function Write(txs: seq<TxRow>, slot: Option<nat>, status: TransactionStatus,
                 data: seq<Assignment>): Option<seq<TxRow>>
    requires slot.Some? ==> slot.value < |txs|
  {
    match slot
    case None => Some(txs)
    case Some(i) =>
      var row := Amend(txs[i], status, data);
      if TxAccepts(txs, i, row) then Some(txs[i := row]) else None
  }

  /** What a successful receipt records about a transaction. */
  function MinedData(txHash: string, receipt: Receipt, at: nat): seq<Assignment> {
    [TxHashIs(txHash), BlockNumberIs(receipt.blockNumber), BlockHashIs(receipt.blockHash),
     GasUsedIs(receipt.gasUsed), GasPriceIs(receipt.gasPrice), FeeIs(receipt.gasUsed * receipt.gasPrice),
     ConfirmedAtIs(at)]
  }

  lemma AssignStep(row: TxData, data: seq<Assignment>, k: nat)
    requires k < |data|
    ensures AssignAll(row, data[..k + 1]) == Assign(AssignAll(row, data[..k]), data[k])
  {
    assert data[..k + 1][..k] == data[..k];
  }

  lemma AmendOne(row: TxData, status: TransactionStatus, txHash: string)
    ensures Amend(row, status, [TxHashIs(txHash)]) == row.(status := status, txHash := Some(txHash))
  {
    var d := [TxHashIs(txHash)];
    AssignStep(row.(status := status), d, 0);
    assert d[..1] == d && d[..0] == [];
  }

  lemma AssignTwo(row: TxData, data: seq<Assignment>, k: nat)
    requires k + 2 <= |data|
    ensures AssignAll(row, data[..k + 2]) == Assign(Assign(AssignAll(row, data[..k]), data[k]), data[k + 1])
  {
    AssignStep(row, data, k);
    AssignStep(row, data, k + 1);
  }

  lemma AmendMined(row: TxData, status: TransactionStatus, txHash: string, receipt: Receipt, at: nat)
    ensures Amend(row, status, MinedData(txHash, receipt, at)) ==
            row.(status := status, txHash := Some(txHash), blockNumber := Some(receipt.blockNumber),
                 blockHash := Some(receipt.blockHash), gasUsed := Some(receipt.gasUsed),
                 gasPrice := Some(receipt.gasPrice), fee := Some(receipt.gasUsed * receipt.gasPrice),
                 confirmedAt := Some(at))
  {
    var d, r := MinedData(txHash, receipt, at), row.(status := status);
    AssignStep(r, d, 0);
    AssignTwo(r, d, 1);
    AssignTwo(r, d, 3);
    AssignTwo(r, d, 5);
    assert d[..0] == [] && d[..7] == d;
  }

  // ----- Queries over blockchain_transactions, newest first -----

  datatype Query =
    | StoreOf(certificate: nat)       // the issuance service's loop
    | OpenRevokeOf(certificate: nat)  // the revocation service's loop
    | HashedStoreOf(certificate: nat) // _get_store_tx_hash
    | MinedStoreOf(certificate: nat)  // _get_block_number

  predicate Matches(q: Query, row: TxRow) {
    && row.certificate == q.certificate
    && match q
       case StoreOf(_) => row.txType.StoreHash?
       case OpenRevokeOf(_) => row.txType.RevokeHash? && (row.status.TxPending? || row.status.TxSubmitted?)
       case HashedStoreOf(_) => row.txType.StoreHash? && row.txHash.Some? && row.txHash.value != ""
       case MinedStoreOf(_) => row.txType.StoreHash? && row.blockNumber.Some? && row.blockNumber.value != 0
  }

  /** The last inserted row that matches. */
  function Newest(txs: seq<TxRow>, q: Query): (r: Option<nat>)
    ensures r.Some? ==> r.value < |txs| && Matches(q, txs[r.value])
    ensures r.Some? ==> forall j :: r.value < j < |txs| ==> !Matches(q, txs[j])
    ensures r.None? ==> forall j :: 0 <= j < |txs| ==> !Matches(q, txs[j])
  {
    if txs == [] then None
    else var last := |txs| - 1;
         if Matches(q, txs[last]) then Some(last) else Newest(txs[..last], q)
  }

  lemma NewestIs(txs: seq<TxRow>, q: Query, i: nat)
    requires i < |txs| && Matches(q, txs[i])
    requires forall j :: i < j < |txs| ==> !Matches(q, txs[j])
    ensures Newest(txs, q) == Some(i)
  {
  }

  lemma NewestFrame(txs: seq<TxRow>, txs': seq<TxRow>, q: Query)
    requires |txs| == |txs'|
    requires forall j :: 0 <= j < |txs| ==> (Matches(q, txs[j]) <==> Matches(q, txs'[j]))
    ensures Newest(txs, q) == Newest(txs', q)
  {
    match Newest(txs, q)
    case None =>
    case Some(i) => NewestIs(txs', q, i);
  }

  lemma NewestAppend(txs: seq<TxRow>, row: TxRow, q: Query)
    ensures Newest(txs + [row], q) == if Matches(q, row) then Some(|txs|) else Newest(txs, q)
  {
    var all := txs + [row];
    if Matches(q, row) {
      NewestIs(all, q, |txs|);
    } else {
      match Newest(txs, q)
      case None =>
      case Some(i) => NewestIs(all, q, i);
    }
  }

  /** get_by_certificate_id: the rows of one certificate, newest first. */
  function NewestFirst(txs: seq<TxRow>, id: nat): (rows: seq<nat>)
    ensures forall k :: 0 <= k < |rows| ==> rows[k] < |txs|
  {
    if txs == [] then []
    else var last := |txs| - 1;
         if txs[last].certificate == id then [last] + NewestFirst(txs[..last], id)
         else NewestFirst(txs[..last], id)
  }

  /** The first of the listed rows that matches. */
  function FirstOf(txs: seq<TxRow>, rows: seq<nat>, q: Query): Option<nat>
    requires forall k :: 0 <= k < |rows| ==> rows[k] < |txs|
  {
    if rows == [] then None
    else if Matches(q, txs[rows[0]]) then Some(rows[0])
    else FirstOf(txs, rows[1..], q)
  }

  lemma {:induction false} FirstOfFrame(txs: seq<TxRow>, rows: seq<nat>, q: Query)
    requires txs != [] && forall k :: 0 <= k < |rows| ==> rows[k] < |txs| - 1
    ensures FirstOf(txs[..|txs| - 1], rows, q) == FirstOf(txs, rows, q)
  {
    if rows == [] {
    } else {
      FirstOfFrame(txs, rows[1..], q);
    }
  }

  /** The first match down the list is the newest match. */
  lemma {:induction false} FirstIsNewest(txs: seq<TxRow>, q: Query)
    ensures FirstOf(txs, NewestFirst(txs, q.certificate), q) == Newest(txs, q)
  {
    if txs == [] {
    } else {
      var rest := NewestFirst(txs[..|txs| - 1], q.certificate);
      FirstIsNewest(txs[..|txs| - 1], q);
      FirstOfFrame(txs, rest, q);
      assert ([|txs| - 1] + rest)[1..] == rest;
    }
  }

  function StoreTxHash(txs: seq<TxRow>, id: nat): string {
    match Newest(txs, HashedStoreOf(id))
    case None => ""
    case Some(i) => txs[i].txHash.value
  }

  function StoreBlockNumber(txs: seq<TxRow>, id: nat): nat {
    match Newest(txs, MinedStoreOf(id))
    case None => 0
    case Some(i) => txs[i].blockNumber.value
  }

  // ----- Unique look-ups -----

  function FindUid(certs: seq<Certificate>, uid: string): (r: Option<nat>)
    ensures r.Some? ==> r.value < |certs| && certs[r.value].uid == uid
    ensures r.None? ==> forall j :: 0 <= j < |certs| ==> certs[j].uid != uid
  {
    if certs == [] then None
    else var last := |certs| - 1;
         if certs[last].uid == uid then Some(last) else FindUid(certs[..last], uid)
  }

  function FindHash(certs: seq<Certificate>, hash: Hash): (r: Option<nat>)
    ensures r.Some? ==> r.value < |certs| && certs[r.value].hash == hash
    ensures r.None? ==> forall j :: 0 <= j < |certs| ==> certs[j].hash != hash
  {
    if certs == [] then None
    else var last := |certs| - 1;
         if certs[last].hash == hash then Some(last) else FindHash(certs[..last], hash)
  }

  function FindToken(qrs: seq<Qr>, token: string): (r: Option<nat>)
    ensures r.Some? ==> r.value < |qrs| && qrs[r.value].token == token
    ensures r.None? ==> forall j :: 0 <= j < |qrs| ==> qrs[j].token != token
  {
    if qrs == [] then None
    else var last := |qrs| - 1;
         if qrs[last].token == token then Some(last) else FindToken(qrs[..last], token)
  }

  function FindActiveQr(qrs: seq<Qr>, id: nat): (r: Option<nat>)
    ensures r.Some? ==> r.value < |qrs| && qrs[r.value].isActive && qrs[r.value].certificate == id
    ensures r.None? ==> forall j :: 0 <= j < |qrs| ==> !(qrs[j].isActive && qrs[j].certificate == id)
  {
    if qrs == [] then None
    else var last := |qrs| - 1;
         if qrs[last].isActive && qrs[last].certificate == id then Some(last) else FindActiveQr(qrs[..last], id)
  }
}
