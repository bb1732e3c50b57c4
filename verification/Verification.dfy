// The two verification flows: backend/services/verification_service.py.
module Verification {
  import opened Basics
  import opened HashCodec
  import opened ChainReader
  import opened Tables
  import opened Database

  /** The blockchain service of one call, as the answers of its two reads. */
  datatype Service = NoService | Service(check: Rpc<ChainCheck>, record: Rpc<Option<ChainRecord>>)

  datatype Proof = Proof(txHash: string, blockNumber: nat, issuer: string, storedAt: nat)

  datatype Evidence = Evidence(submitted: string, stored: string, matches: bool)

  datatype Report = Report(
    result: VerificationResult, certificate: Option<nat>, proof: Option<Proof>, evidence: Option<Evidence>)

  /** Either both reads answered, or the flow falls back on the database, or an error escapes. */
  datatype Verdict = Online(check: ChainCheck, record: Option<ChainRecord>) | Offline | Broken

  function Consult(service: Service): Verdict {
    if service.NoService? then Offline
    else match service.check
         case Unreachable => Offline
         case ContractFault => Broken
         case Answer(check) =>
           match service.record
           case Unreachable => Offline
           case ContractFault => Broken
           case Answer(record) => Online(check, record)
  }

  function FromChain(check: ChainCheck): VerificationResult {
    if check.status == RevokedOnChain then RevokedResult
    else if check.isValid && check.status == Active then Authentic
    else Tampered
  }

  function ProofOf(t: Tables, id: nat, v: Verdict): Option<Proof> {
    if v.Online? && v.record.Some? then
      Some(Proof(StoreTxHash(t.txs, id), StoreBlockNumber(t.txs, id), v.record.value.issuer, v.record.value.issuedAt))
    else None
  }

  // ----- Flow A: file upload -----

  function FindCertificate(t: Tables, digest: Hash, hint: Option<string>): (r: Option<nat>)
    ensures r.Some? ==> r.value < |t.certs|
  {
    var hinted := if hint.Some? && hint.value != "" then FindUid(t.certs, hint.value) else None;
    if hinted.Some? then hinted else FindHash(t.certs, digest)
  }

  function UploadResult(cert: Certificate, digest: Hash, v: Verdict): VerificationResult {
    if v.Online? then FromChain(v.check)
    else if !cert.isActive then RevokedResult
    else if digest == cert.hash then PendingChain
    else Tampered
  }

  function UploadEvidence(cert: Certificate, digest: Hash, v: Verdict): Evidence {
    if v.Online? then Evidence(digest, if v.record.Some? then v.record.value.hash else cert.hash, v.check.isValid)
    else Evidence(digest, cert.hash, digest == cert.hash)
  }

  function UploadLog(cert: Certificate, id: nat, user: nat, digest: Hash, result: VerificationResult,
                     verified: bool, txHash: Option<string>): LogRow {
    LogRow(Some(id), Some(cert.uid), Some(user), None, FileUpload, result, Some(digest), Some(cert.hash),
           Some(digest == cert.hash), verified, txHash)
  }

  function NotFoundLog(hint: Option<string>, user: nat, digest: Hash): LogRow {
    LogRow(None, hint, Some(user), None, FileUpload, NotFound, Some(digest), None, None, false, None)
  }

  function Log<T>(t: Tables, row: LogRow, value: T): (Tables, Reply<T>) {
    if LogAccepts(row) then (t.(logs := t.logs + [Stored(row)]), Ok(value)) else (t, Raise(IntegrityError))
  }

  /** What an upload is answered and what is to be logged about it. */
  datatype Entry = Entry(row: LogRow, report: Report)

  /** The entry of an upload that found certificate `id`; None when a contract error escapes. */
  function FoundEntry(t: Tables, id: nat, user: nat, digest: Hash, service: Service): Option<Entry>
    requires id < |t.certs|
  {
    var cert := t.certs[id];
    if !cert.status.Confirmed? then
      var result := if cert.status.Revoked? then RevokedResult else PendingChain;
      Some(Entry(UploadLog(cert, id, user, digest, result, false, None),
                 Report(result, Some(id), None, Some(Evidence(digest, cert.hash, false)))))
    else
      var v := Consult(service);
      if v.Broken? then None
      else
        var result := UploadResult(cert, digest, v);
        Some(Entry(UploadLog(cert, id, user, digest, result, v.Online?, Some(StoreTxHash(t.txs, id))),
                   Report(result, Some(id), ProofOf(t, id, v), Some(UploadEvidence(cert, digest, v)))))
  }

  function UploadEntry(t: Tables, user: nat, digest: Hash, hint: Option<string>, service: Service): Option<Entry> {
    match FindCertificate(t, digest, hint)
    case None => Some(Entry(NotFoundLog(hint, user, digest), Report(NotFound, None, None, None)))
    case Some(id) => FoundEntry(t, id, user, digest, service)
  }

  /** verify_by_file_upload */
  function VerifyUpload(t: Tables, user: nat, digest: Hash, hint: Option<string>, service: Service):
      (Tables, Reply<Report>)
  {
    match UploadEntry(t, user, digest, hint, service)
    case None => (t, Raise(BlockchainContractError))
    case Some(e) => Log(t, e.row, e.report)
  }

  method VerifyByFileUpload(db: Session, user: nat, digest: Hash, hint: Option<string>, service: Service)
    returns (reply: Reply<Report>)
    modifies db
    ensures (db.Now(), reply) == VerifyUpload(old(db.Now()), user, digest, hint, service)
  {
    db.Begin();
    var certificate: Option<nat> := None;
    if hint.Some? && hint.value != "" {
      certificate := FindUid(db.certs, hint.value);
    }
    if certificate.None? {
      certificate := FindHash(db.certs, digest);
    }
    if certificate.None? {
      reply := RecordLog(db, NotFoundLog(hint, user, digest), Report(NotFound, None, None, None));
      return;
    }
    var id := certificate.value;
    var cert := db.certs[id];
    var result := PendingChain;
    if !cert.status.Confirmed? {
      if cert.status.Revoked? {
        result := RevokedResult;
      }
      reply := RecordLog(db, UploadLog(cert, id, user, digest, result, false, None),
                         Report(result, Some(id), None, Some(Evidence(digest, cert.hash, false))));
      return;
    }

    var broken, verdict, verified, proof, evidence := JudgeUpload(db, id, digest, service);
    if broken {
      return Raise(BlockchainContractError);
    }
    reply := RecordLog(db, UploadLog(cert, id, user, digest, verdict, verified, Some(StoreTxHash(db.txs, id))),
                       Report(verdict, Some(id), proof, evidence));
  }

  /** _record_log, and the reply that follows it. */
  method RecordLog(db: Session, row: LogRow, report: Report) returns (reply: Reply<Report>)
    modifies db`logs
    ensures (db.Now(), reply) == Log(old(db.Now()), row, report)
  {
    var ok := db.CreateLog(row);
    return if ok then Ok(report) else Raise(IntegrityError);
  }

  /** Step 5: the decision matrix and its fallbacks, reassigning the result as the reads come in. */
  method JudgeUpload(db: Session, id: nat, digest: Hash, service: Service)
    returns (broken: bool, result: VerificationResult, verified: bool, proof: Option<Proof>, evidence: Option<Evidence>)
    requires id < |db.certs|
    ensures broken == Consult(service).Broken?
    ensures !broken ==>
            && result == UploadResult(db.certs[id], digest, Consult(service))
            && verified == Consult(service).Online?
            && proof == ProofOf(db.Now(), id, Consult(service))
            && evidence == Some(UploadEvidence(db.certs[id], digest, Consult(service)))
  {
    var cert := db.certs[id];
    broken, result, verified, proof, evidence := false, PendingChain, false, None, None;
    var outage := service.NoService?;
    if service.Service? {
      match service.check {
        case Unreachable =>
          outage := true;
        case ContractFault =>
          broken := true;
        case Answer(check) =>
          result := FromChain(check);
          verified := true;
          match service.record {
            case Unreachable =>
              outage := true;
            case ContractFault =>
              broken := true;
            case Answer(record) =>
              var stored: string := cert.hash;
              if record.Some? {
                proof := Some(Proof(StoreTxHash(db.txs, id), StoreBlockNumber(db.txs, id),
                                    record.value.issuer, record.value.issuedAt));
                stored := record.value.hash;
              }
              evidence := Some(Evidence(digest, stored, check.isValid));
          }
      }
    }
    if outage {
      // Whatever the first read said is overwritten by the database's view.
      verified := false;
      var hashMatch := digest == cert.hash;
      if !cert.isActive {
        result := RevokedResult;
      } else if hashMatch {
        result := PendingChain;
      } else {
        result := Tampered;
      }
      evidence := Some(Evidence(digest, cert.hash, hashMatch));
    }
  }

  // ----- Flow B: QR scan -----

  /** The QR row of a scan that goes ahead: known, active, not expired, certificate present. */
  function FindScan(t: Tables, token: string, now: nat): (r: Option<nat>)
    ensures r.Some? ==> r.value < |t.qrs| && t.qrs[r.value].certificate < |t.certs|
  {
    match FindToken(t.qrs, token)
    case None => None
    case Some(q) =>
      var qr := t.qrs[q];
      if !qr.isActive || (qr.expiresAt.Some? && qr.expiresAt.value < now) || qr.certificate >= |t.certs| then None
      else Some(q)
  }

  function ScanResult(cert: Certificate, v: Verdict): VerificationResult {
    if v.Online? then FromChain(v.check)
    else if cert.status.Revoked? || !cert.isActive then RevokedResult
    else PendingChain
  }

  function ScanLog(cert: Certificate, id: nat, q: nat, result: VerificationResult, verified: bool,
                   txHash: string): LogRow {
    LogRow(Some(id), Some(cert.uid), None, Some(q), QrScan, result, None, Some(cert.hash), None, verified, Some(txHash))
  }

  function ScanVerdict(cert: Certificate, service: Service): Verdict {
    if cert.status.Confirmed? then Consult(service) else Offline
  }

  /** One more scan of QR code `q`, logged as `row`. */
  function Counted(t: Tables, q: nat, row: LogRow): Tables
    requires q < |t.qrs|
  {
    t.(logs := t.logs + [row], qrs := t.qrs[q := t.qrs[q].(scans := t.qrs[q].scans + 1)])
  }

  /** verify_by_qr_token */
  function VerifyQr(t: Tables, token: string, now: nat, service: Service): (Tables, Reply<Report>) {
    match FindScan(t, token, now)
    case None => (t, Ok(Report(NotFound, None, None, None)))
    case Some(q) =>
      var id := t.qrs[q].certificate;
      var cert := t.certs[id];
      var v := ScanVerdict(cert, service);
      if v.Broken? then (t, Raise(BlockchainContractError))
      else
        var result := ScanResult(cert, v);
        var row := ScanLog(cert, id, q, result, v.Online?, StoreTxHash(t.txs, id));
        if LogAccepts(row) then
          (Counted(t, q, Stored(row)), Ok(Report(result, Some(id), ProofOf(t, id, v), None)))
        else (t, Raise(IntegrityError))
  }

  method VerifyByQrToken(db: Session, token: string, now: nat, service: Service) returns (reply: Reply<Report>)
    modifies db
    ensures (db.Now(), reply) == VerifyQr(old(db.Now()), token, now, service)
  {
    db.Begin();
    var notFound := Report(NotFound, None, None, None);
    var found := FindToken(db.qrs, token);
    if found.None? {
      return Ok(notFound);
    }
    var q := found.value;
    var qr := db.qrs[q];
    if !qr.isActive {
      return Ok(notFound);
    }
    if qr.expiresAt.Some? && qr.expiresAt.value < now {
      return Ok(notFound);
    }
    if qr.certificate >= |db.certs| {
      return Ok(notFound);
    }
    var id := qr.certificate;
    var broken, result, verified, proof := JudgeScan(db, id, service);
    if broken {
      return Raise(BlockchainContractError);
    }
    var ok := RecordScan(db, q, ScanLog(db.certs[id], id, q, result, verified, StoreTxHash(db.txs, id)));
    return if ok then Ok(Report(result, Some(id), proof, None)) else Raise(IntegrityError);
  }

  /** Steps 5 and 6: count the scan and log it, or undo both. */
  method RecordScan(db: Session, q: nat, row: LogRow) returns (ok: bool)
    requires q < |db.qrs| && db.saved == db.Now()
    modifies db
    ensures ok == LogAccepts(row)
    ensures db.Now() == if ok then Counted(old(db.Now()), q, Stored(row)) else old(db.Now())
  {
    db.IncrementScanCount(q);
    ok := db.CreateLog(row);
    if !ok {
      db.Rollback();
    }
  }

  /** Step 4: the chain's answer for the stored hash, or the database's view. */
  method JudgeScan(db: Session, id: nat, service: Service)
    returns (broken: bool, result: VerificationResult, verified: bool, proof: Option<Proof>)
    requires id < |db.certs|
    ensures broken == ScanVerdict(db.certs[id], service).Broken?
    ensures !broken ==>
            var v := ScanVerdict(db.certs[id], service);
            && result == ScanResult(db.certs[id], v)
            && verified == v.Online?
            && proof == ProofOf(db.Now(), id, v)
  {
    var cert := db.certs[id];
    broken, result, verified, proof := false, PendingChain, false, None;
    var outage := true;
    if cert.status.Confirmed? && service.Service? {
      match service.check {
        case Unreachable =>
        case ContractFault =>
          broken := true;
          return;
        case Answer(check) =>
          result := FromChain(check);
          match service.record {
            case Unreachable =>
            case ContractFault =>
              broken := true;
              return;
            case Answer(record) =>
              outage := false;
              verified := true;
              if record.Some? {
                proof := Some(Proof(StoreTxHash(db.txs, id), StoreBlockNumber(db.txs, id),
                                    record.value.issuer, record.value.issuedAt));
              }
          }
      }
    }
    if outage {
      result := if cert.status.Revoked? || !cert.isActive then RevokedResult else PendingChain;
    }
  }
}
