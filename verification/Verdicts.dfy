// What a verification answer is worth: exactness, degradation, finality of revocation, and the log.
module Verdicts {
  import opened Basics
  import opened HashCodec
  import opened ChainReader
  import opened Tables
  import opened Verification
  import opened Protocol
  import opened Shapes
  import opened Invariants
  import opened Agreement
  import R = Registry

  ghost predicate Reachable(s: System) {
    exists owner, es :: s == Run(Start(owner), es)
  }

  lemma ReachableOk(s: System)
    requires Reachable(s)
    ensures Inv(s)
  {
    var owner, es :| s == Run(Start(owner), es);
    StartOk(owner);
    RunKeeps(Start(owner), es);
  }

  ghost predicate Live(io: Reads) {
    io.service && io.first == Up && io.second == Up
  }

  /** No chain answer: no service, or an outage at either read. */
  ghost predicate Chainless(io: Reads) {
    !io.service || io.first == Down || (io.first == Up && io.second == Down)
  }

  ghost function FileReply(s: System, verifier: nat, digest: Hash, hint: Option<string>, io: Reads): Reply<Report> {
    CheckFileReply(s, verifier, digest, hint, io).1
  }

  lemma TxHashLogged(s: System, k: nat)
    requires Inv(s) && k < |s.db.certs| && StoreStatus(s.db.txs, k) == Some(TxConfirmed)
    ensures IsTxHash(StoreTxHash(s.db.txs, k)) && StoreBlockNumber(s.db.txs, k) > 0
    ensures exists i: nat :: OnlyStoreRow(s.db, k, i) && s.db.txs[i].txHash == Some(StoreTxHash(s.db.txs, k))
              && s.db.txs[i].blockNumber == Some(StoreBlockNumber(s.db.txs, k))
  {
    SettledRow(s, k);
    var i: nat :| OnlyStoreRow(s.db, k, i);
    NewestIs(s.db.txs, HashedStoreOf(k), i);
    NewestIs(s.db.txs, MinedStoreOf(k), i);
  }

  /** What the registry says about the digest of a CONFIRMED certificate. */
  lemma ChainSays(c: R.Chain, cert: Certificate, digest: Hash)
    requires OnChain(c, cert)
    ensures FromChain(Verify(c, cert.uid, digest)) ==
            if RevokedThere(c, cert) then RevokedResult else if digest == cert.hash then Authentic else Tampered
    ensures Verify(c, cert.uid, digest).isValid <==> !RevokedThere(c, cert) && digest == cert.hash
  {
    HashBytesBijection(digest, cert.hash, c.records[cert.uid].hash);
  }

  lemma AcceptsUpload(cert: Certificate, id: nat, user: nat, digest: Hash, result: VerificationResult,
                      verified: bool, txHash: Option<string>)
    requires txHash.Some? ==> IsTxHash(txHash.value)
    requires result == Authentic ==> digest == cert.hash
    ensures LogAccepts(UploadLog(cert, id, user, digest, result, verified, txHash))
  {
  }

  /** Live reads give an online verdict, an outage at either read an offline one. */
  lemma VerdictIs(s: System, id: nat, digest: Hash, io: Reads)
    requires id < |s.db.certs|
    ensures
      var uid := s.db.certs[id].uid;
      Consult(ServiceOf(s, Some(id), digest, io)) ==
        if Live(io) then Online(Verify(s.chain, uid, digest), GetRecord(R.Mine(s.chain, io.between), uid, io.mask))
        else if Chainless(io) then Offline else Broken
  {
  }

  /** The reply of an upload that finds certificate `id`, given that its log row is acceptable. */
  lemma UploadReplyIs(t: Tables, verifier: nat, digest: Hash, hint: Option<string>, service: Service, id: nat)
    requires FindCertificate(t, digest, hint) == Some(id)
    requires t.certs[id].status.Confirmed? ==> IsTxHash(StoreTxHash(t.txs, id)) && t.certs[id].isActive
    requires Consult(service).Online? && FromChain(Consult(service).check) == Authentic ==> digest == t.certs[id].hash
    ensures
      var cert, v, reply := t.certs[id], Consult(service), VerifyUpload(t, verifier, digest, hint, service).1;
      if cert.status.Revoked? then IsReport(reply, RevokedResult, id, None, Evidence(digest, cert.hash, false))
      else if !cert.status.Confirmed? then IsReport(reply, PendingChain, id, None, Evidence(digest, cert.hash, false))
      else if v.Broken? then reply == Raise(BlockchainContractError)
      else IsReport(reply, UploadResult(cert, digest, v), id, ProofOf(t, id, v), UploadEvidence(cert, digest, v))
  {
    var cert := t.certs[id];
    if cert.status.Confirmed? {
      var v := Consult(service);
      if !v.Broken? {
        AcceptsUpload(cert, id, verifier, digest, UploadResult(cert, digest, v), v.Online?, Some(StoreTxHash(t.txs,
                                                            id)));
      }
    } else {
      AcceptsUpload(cert, id, verifier, digest, if cert.status.Revoked? then RevokedResult else PendingChain, false,
                    None);
    }
  }

  ghost predicate IsReport(reply: Reply<Report>, result: VerificationResult, id: nat, proof: Option<Proof>,
                           evidence: Evidence) {
    reply == Ok(Report(result, Some(id), proof, Some(evidence)))
  }

  /** What the invariant says about one certificate. */
  lemma CertificateFacts(s: System, k: nat)
    requires Inv(s) && k < |s.db.certs|
    ensures s.db.certs[k].status.Confirmed? ==>
      && s.db.certs[k].isActive && OnChain(s.chain, s.db.certs[k])
      && IsTxHash(StoreTxHash(s.db.txs, k)) && StoreBlockNumber(s.db.txs, k) > 0
      && StoreStatus(s.db.txs, k) == Some(TxConfirmed)
    ensures s.db.certs[k].status.Revoked? ==> RevokedThere(s.chain, s.db.certs[k])
    ensures !s.db.certs[k].status.Failed?
  {
    assert CertOk(s.db.certs[k], StoreStatus(s.db.txs, k), s.chain);
    if s.db.certs[k].status.Confirmed? {
      TxHashLogged(s, k);
    }
  }

  /** The result of an upload that finds certificate `cert`, in terms of the registry alone. */
  ghost function ExpectedUpload(c: R.Chain, cert: Certificate, digest: Hash, live: bool): VerificationResult {
    if cert.status.Revoked? then RevokedResult
    else if !cert.status.Confirmed? then PendingChain
    else if live then
      (if RevokedThere(c, cert) then RevokedResult else if digest == cert.hash then Authentic else Tampered)
    else if digest == cert.hash then PendingChain else Tampered
  }

  /** What an upload that finds certificate `id` is answered. */
  ghost predicate Answered(s: System, digest: Hash, io: Reads, id: nat, reply: Reply<Report>) {
    && id < |s.db.certs|
    && var cert := s.db.certs[id];
       if cert.status.Confirmed? && !Live(io) && !Chainless(io) then reply == Raise(BlockchainContractError)
       else
         && reply.Ok? && reply.value.certificate == Some(id)
         && reply.value.result == ExpectedUpload(s.chain, cert, digest, Live(io))
  }

  /** What any upload is answered. */
  ghost predicate AnswerOf(s: System, digest: Hash, hint: Option<string>, io: Reads, reply: Reply<Report>) {
    match FindCertificate(s.db, digest, hint)
    case None =>
      if hint.Some? && !Fits(hint.value, UID_QUERIED_WIDTH) then reply == Raise(IntegrityError)
      else reply == Ok(Report(NotFound, None, None, None))
    case Some(id) => Answered(s, digest, io, id, reply)
  }

  lemma UploadAnswer(s: System, verifier: nat, digest: Hash, hint: Option<string>, io: Reads, id: nat)
    requires Inv(s) && FindCertificate(s.db, digest, hint) == Some(id)
    ensures Answered(s, digest, io, id, FileReply(s, verifier, digest, hint, io))
  {
    CertificateFacts(s, id);
    UploadAnswerFrom(s, verifier, digest, hint, io, id);
  }

  lemma NotFoundAnswer(s: System, verifier: nat, digest: Hash, hint: Option<string>, io: Reads)
    requires FindCertificate(s.db, digest, hint).None?
    ensures AnswerOf(s, digest, hint, io, FileReply(s, verifier, digest, hint, io))
  {
    assert LogChecks(NotFoundLog(hint, verifier, digest));
  }

  lemma AnyAnswer(s: System, verifier: nat, digest: Hash, hint: Option<string>, io: Reads)
    requires Inv(s)
    ensures AnswerOf(s, digest, hint, io, FileReply(s, verifier, digest, hint, io))
  {
    if FindCertificate(s.db, digest, hint).Some? {
      UploadAnswer(s, verifier, digest, hint, io, FindCertificate(s.db, digest, hint).value);
    } else {
      NotFoundAnswer(s, verifier, digest, hint, io);
    }
  }

  lemma UploadAnswerFrom(s: System, verifier: nat, digest: Hash, hint: Option<string>, io: Reads, id: nat)
    requires FindCertificate(s.db, digest, hint) == Some(id)
    requires s.db.certs[id].status.Confirmed? ==>
      s.db.certs[id].isActive && OnChain(s.chain, s.db.certs[id]) && IsTxHash(StoreTxHash(s.db.txs, id))
    ensures
      var cert, reply := s.db.certs[id], FileReply(s, verifier, digest, hint, io);
      if cert.status.Confirmed? && !Live(io) && !Chainless(io) then reply == Raise(BlockchainContractError)
      else
        && reply.Ok? && reply.value.certificate == Some(id)
        && reply.value.result == ExpectedUpload(s.chain, cert, digest, Live(io))
        && (cert.status.Confirmed? ==>
              var v := Consult(ServiceOf(s, Some(id), digest, io));
              && reply.value.proof == ProofOf(s.db, id, v)
              && reply.value.evidence == Some(UploadEvidence(cert, digest, v)))
  {
    var cert := s.db.certs[id];
    VerdictIs(s, id, digest, io);
    if cert.status.Confirmed? {
      ChainSays(s.chain, cert, digest);
    } else if Live(io) {
      UploadUnconfirmed(s.db, verifier, digest, hint, ServiceOf(s, Some(id), digest, io), id);
    }
    if cert.status.Confirmed? || !Live(io) {
      UploadReplyIs(s.db, verifier, digest, hint, ServiceOf(s, Some(id), digest, io), id);
    }
  }

  /** The service is not asked about a certificate that is not CONFIRMED. */
  lemma UploadUnconfirmed(t: Tables, verifier: nat, digest: Hash, hint: Option<string>, service: Service, id: nat)
    requires FindCertificate(t, digest, hint) == Some(id) && !t.certs[id].status.Confirmed?
    ensures
      var result := if t.certs[id].status.Revoked? then RevokedResult else PendingChain;
      IsReport(VerifyUpload(t, verifier, digest, hint, service).1, result, id, None, Evidence(digest,
                                                            t.certs[id].hash, false))
  {
    UploadReplyIs(t, verifier, digest, hint, NoService, id);
  }

  /**
   * Exactness. For a CONFIRMED certificate and a reachable chain, the answer to an upload is REVOKED
   * iff the registry says revoked, AUTHENTIC iff it is active and the digest is the certificate's,
   * TAMPERED iff it is active and the digest is another.
   */
  lemma UploadIsExact(s: System, verifier: nat, digest: Hash, hint: Option<string>, io: Reads, id: nat)
    requires Reachable(s) && Live(io)
    requires FindCertificate(s.db, digest, hint) == Some(id) && s.db.certs[id].status.Confirmed?
    ensures
      var cert, reply := s.db.certs[id], FileReply(s, verifier, digest, hint, io);
      && reply.Ok?
      && (reply.value.result == RevokedResult <==> RevokedThere(s.chain, cert))
      && (reply.value.result == Authentic <==> !RevokedThere(s.chain, cert) && digest == cert.hash)
      && (reply.value.result == Tampered <==> !RevokedThere(s.chain, cert) && digest != cert.hash)
  {
    ReachableOk(s);
    UploadAnswer(s, verifier, digest, hint, io, id);
  }

  /** The proof and evidence of such an answer quote the chain and the settled store transaction. */
  lemma UploadProof(s: System, verifier: nat, digest: Hash, hint: Option<string>, io: Reads, id: nat)
    requires Reachable(s) && Live(io)
    requires FindCertificate(s.db, digest, hint) == Some(id) && s.db.certs[id].status.Confirmed?
    ensures
      var cert, reply := s.db.certs[id], FileReply(s, verifier, digest, hint, io);
      && reply.Ok? && reply.value.proof.Some? && cert.uid in s.chain.records
      && Lower(reply.value.proof.value.issuer) == s.chain.records[cert.uid].issuer
      && reply.value.proof.value.storedAt == s.chain.records[cert.uid].issuedAt
      && (exists i: nat :: OnlyStoreRow(s.db, id, i)
            && s.db.txs[i].txHash == Some(reply.value.proof.value.txHash)
            && s.db.txs[i].blockNumber == Some(reply.value.proof.value.blockNumber))
      && reply.value.evidence ==
           Some(Evidence(digest, cert.hash, digest == cert.hash && !RevokedThere(s.chain, cert)))
  {
    ReachableOk(s);
    CertificateFacts(s, id);
    TxHashLogged(s, id);
    R.MineKeepsLedger(s.chain, io.between);
    UploadProofFrom(s, verifier, digest, hint, io, id);
  }

  lemma UploadProofFrom(s: System, verifier: nat, digest: Hash, hint: Option<string>, io: Reads, id: nat)
    requires FindCertificate(s.db, digest, hint) == Some(id) && s.db.certs[id].status.Confirmed?
    requires s.db.certs[id].isActive && OnChain(s.chain, s.db.certs[id]) && IsTxHash(StoreTxHash(s.db.txs, id))
    requires Live(io) && R.Extends(s.chain, R.Mine(s.chain, io.between))
    ensures
      var cert, reply := s.db.certs[id], FileReply(s, verifier, digest, hint, io);
      && reply.Ok? && reply.value.proof.Some?
      && Lower(reply.value.proof.value.issuer) == s.chain.records[cert.uid].issuer
      && reply.value.proof.value.storedAt == s.chain.records[cert.uid].issuedAt
      && reply.value.proof.value.txHash == StoreTxHash(s.db.txs, id)
      && reply.value.proof.value.blockNumber == StoreBlockNumber(s.db.txs, id)
      && reply.value.evidence ==
           Some(Evidence(digest, cert.hash, digest == cert.hash && !RevokedThere(s.chain, cert)))
  {
    var cert := s.db.certs[id];
    UploadAnswerFrom(s, verifier, digest, hint, io, id);
    VerdictIs(s, id, digest, io);
    ChainSays(s.chain, cert, digest);
    LowerUndoesRecase(s.chain.records[cert.uid].issuer, io.mask);
  }

  lemma HashedNeverTampered(s: System, digest: Hash, hint: Option<string>, io: Reads, reply: Reply<Report>)
    requires AnswerOf(s, digest, hint, io, reply)
    requires hint.None? || hint.value == "" || FindUid(s.db.certs, hint.value).None?
    ensures reply.Ok? ==> reply.value.result != Tampered
  {
  }

  /** Without a UID hint that names a certificate, no upload is ever answered TAMPERED. */
  lemma UnhintedNeverTampered(s: System, verifier: nat, digest: Hash, hint: Option<string>, io: Reads)
    requires Reachable(s)
    requires hint.None? || hint.value == "" || FindUid(s.db.certs, hint.value).None?
    ensures var reply := FileReply(s, verifier, digest, hint, io); reply.Ok? ==> reply.value.result != Tampered
  {
    ReachableOk(s);
    AnyAnswer(s, verifier, digest, hint, io);
    HashedNeverTampered(s, digest, hint, io, FileReply(s, verifier, digest, hint, io));
  }

  /** The chain-less answer `weak` says no more than the online answer `full`. */
  ghost predicate Refines(s: System, weak: Report, full: Report) {
    && weak.certificate == full.certificate
    && weak.result != Authentic
    && (weak.result == Tampered ==> full.result == Tampered || full.result == RevokedResult)
    && (weak.result == PendingChain ==>
          && weak.certificate.Some? && weak.certificate.value < |s.db.certs|
          && if s.db.certs[weak.certificate.value].status.Confirmed? then
               full.result == Authentic || full.result == RevokedResult
             else full.result == PendingChain)
    && (weak.result == RevokedResult ==> full.result == RevokedResult)
    && (weak.result == NotFound <==> full.result == NotFound)
  }

  lemma AnswersRefine(s: System, digest: Hash, hint: Option<string>, down: Reads, up: Reads,
                      weak: Reply<Report>, full: Reply<Report>)
    requires AnswerOf(s, digest, hint, down, weak) && AnswerOf(s, digest, hint, up, full)
    requires Chainless(down) && Live(up) && weak.Ok?
    ensures full.Ok? && Refines(s, weak.value, full.value)
  {
  }

  /**
   * Degradation. Asked about the same file in the same state, the answer without the chain never
   * says AUTHENTIC and never contradicts the answer with it.
   */
  lemma DegradedUploadRefines(s: System, verifier: nat, digest: Hash, hint: Option<string>, down: Reads, up: Reads)
    requires Reachable(s) && Chainless(down) && Live(up)
    requires FileReply(s, verifier, digest, hint, down).Ok?
    ensures FileReply(s, verifier, digest, hint, up).Ok?
    ensures Refines(s, FileReply(s, verifier, digest, hint, down).value, FileReply(s, verifier, digest, hint, up).value)
  {
    ReachableOk(s);
    AnyAnswer(s, verifier, digest, hint, down);
    AnyAnswer(s, verifier, digest, hint, up);
    AnswersRefine(s, digest, hint, down, up, FileReply(s, verifier, digest, hint, down), FileReply(s, verifier,
                                                            digest, hint, up));
  }

  /**
   * Revocation is final for the document: once a certificate is revoked, in the database or on the
   * chain, no later upload of its file is answered AUTHENTIC, whatever UID the verifier names, even
   * though the registry lets one digest be stored under two UIDs.
   */
  lemma RevocationIsFinal(owner: Address, es: seq<Event>, more: seq<Event>, k: nat,
                          verifier: nat, hint: Option<string>, io: Reads)
    requires k < |Run(Start(owner), es).db.certs|
    requires
      var s := Run(Start(owner), es);
      s.db.certs[k].status.Revoked? || RevokedThere(s.chain, s.db.certs[k])
    ensures
      var reply := FileReply(Run(Start(owner), es + more), verifier, Run(Start(owner), es).db.certs[k].hash, hint, io);
      reply.Ok? ==> reply.value.result != Authentic
  {
    RevokedForGood(owner, es, more, k);
    RevokedNotAuthentic(Run(Start(owner), es + more), k, verifier, hint, io);
  }

  /** What is revoked in either ledger is revoked on the chain ever after. */
  lemma RevokedForGood(owner: Address, es: seq<Event>, more: seq<Event>, k: nat)
    requires k < |Run(Start(owner), es).db.certs|
    requires
      var s := Run(Start(owner), es);
      s.db.certs[k].status.Revoked? || RevokedThere(s.chain, s.db.certs[k])
    ensures
      var s, later := Run(Start(owner), es), Run(Start(owner), es + more);
      && Inv(later) && k < |later.db.certs| && later.db.certs[k].hash == s.db.certs[k].hash
      && RevokedThere(later.chain, later.db.certs[k])
  {
    var s := Run(Start(owner), es);
    StartOk(owner);
    RunKeeps(Start(owner), es);
    RunAppend(Start(owner), es, more);
    RunKeeps(s, more);
    RunOnward(s, more);
    CertificateFacts(s, k);
    RevokedStays(s, Run(s, more), k);
  }

  lemma RevokedStays(s: System, later: System, k: nat)
    requires k < |s.db.certs| && RevokedThere(s.chain, s.db.certs[k])
    requires Onward(s.db.certs, later.db.certs) && R.Extends(s.chain, later.chain)
    ensures RevokedThere(later.chain, later.db.certs[k])
  {
  }

  lemma HashIsUnique(certs: seq<Certificate>, j: nat, k: nat)
    requires Distinct(certs) && j < |certs| && k < |certs| && certs[j].hash == certs[k].hash
    ensures j == k
  {
  }

  lemma RevokedAnswer(s: System, k: nat, hint: Option<string>, io: Reads, reply: Reply<Report>)
    requires Distinct(s.db.certs) && k < |s.db.certs| && RevokedThere(s.chain, s.db.certs[k])
    requires AnswerOf(s, s.db.certs[k].hash, hint, io, reply)
    ensures reply.Ok? ==> reply.value.result != Authentic
  {
    var found := FindCertificate(s.db, s.db.certs[k].hash, hint);
    if found.Some? && s.db.certs[found.value].hash == s.db.certs[k].hash {
      HashIsUnique(s.db.certs, found.value, k);
    }
  }

  lemma RevokedNotAuthentic(s: System, k: nat, verifier: nat, hint: Option<string>, io: Reads)
    requires Inv(s) && k < |s.db.certs| && RevokedThere(s.chain, s.db.certs[k])
    ensures
      var reply := FileReply(s, verifier, s.db.certs[k].hash, hint, io);
      reply.Ok? ==> reply.value.result != Authentic
  {
    AnyAnswer(s, verifier, s.db.certs[k].hash, hint, io);
    RevokedAnswer(s, k, hint, io, FileReply(s, verifier, s.db.certs[k].hash, hint, io));
  }

  // ----- QR scans -----

  ghost function QrReply(s: System, token: string, now: nat, io: Reads): Reply<Report> {
    ScanReply(s, token, now, io).1
  }

  lemma AcceptsScan(cert: Certificate, id: nat, q: nat, result: VerificationResult, verified: bool, txHash: string)
    requires IsTxHash(txHash) && result != Tampered
    ensures LogAccepts(ScanLog(cert, id, q, result, verified, txHash))
  {
  }

  /** The reply of a scan, given that its log row is acceptable. */
  lemma ScanReplyIs(t: Tables, token: string, now: nat, service: Service, q: nat)
    requires FindScan(t, token, now) == Some(q) && IsTxHash(StoreTxHash(t.txs, t.qrs[q].certificate))
    requires var v := ScanVerdict(t.certs[t.qrs[q].certificate], service);
             v.Online? ==> FromChain(v.check) != Tampered
    ensures
      var id := t.qrs[q].certificate;
      var v, reply := ScanVerdict(t.certs[id], service), VerifyQr(t, token, now, service).1;
      if v.Broken? then reply == Raise(BlockchainContractError)
      else reply == Ok(Report(ScanResult(t.certs[id], v), Some(id), ProofOf(t, id, v), None))
  {
    var id := t.qrs[q].certificate;
    var v := ScanVerdict(t.certs[id], service);
    if !v.Broken? {
      AcceptsScan(t.certs[id], id, q, ScanResult(t.certs[id], v), v.Online?, StoreTxHash(t.txs, id));
    }
  }

  ghost function ExpectedScan(c: R.Chain, cert: Certificate, live: bool): VerificationResult {
    if cert.status.Revoked? then RevokedResult
    else if !live then PendingChain
    else if RevokedThere(c, cert) then RevokedResult else Authentic
  }

  lemma ScanAnswerFrom(s: System, token: string, now: nat, io: Reads, q: nat)
    requires FindScan(s.db, token, now) == Some(q)
    requires
      var id := s.db.qrs[q].certificate;
      var cert := s.db.certs[id];
      && (cert.status.Confirmed? || cert.status.Revoked?) && (cert.status.Confirmed? ==> cert.isActive)
      && OnChain(s.chain, cert) && IsTxHash(StoreTxHash(s.db.txs, id))
    ensures
      var id := s.db.qrs[q].certificate;
      var cert, reply := s.db.certs[id], QrReply(s, token, now, io);
      if cert.status.Confirmed? && !Live(io) && !Chainless(io) then reply == Raise(BlockchainContractError)
      else
        && reply.Ok? && reply.value.certificate == Some(id)
        && reply.value.result == ExpectedScan(s.chain, cert, Live(io))
  {
    var id := s.db.qrs[q].certificate;
    var cert := s.db.certs[id];
    VerdictIs(s, id, cert.hash, io);
    ChainSays(s.chain, cert, cert.hash);
    ScanReplyIs(s.db, token, now, ServiceOf(s, Some(id), cert.hash, io), q);
  }

  /** What a scan that goes ahead with code `q` is answered. */
  ghost predicate ScanAnswered(s: System, io: Reads, q: nat, reply: Reply<Report>) {
    && q < |s.db.qrs| && s.db.qrs[q].certificate < |s.db.certs|
    && var id := s.db.qrs[q].certificate;
       var cert := s.db.certs[id];
       && (cert.status.Confirmed? || cert.status.Revoked?)
       && (cert.status.Revoked? ==> RevokedThere(s.chain, cert))
       && if cert.status.Confirmed? && !Live(io) && !Chainless(io) then reply == Raise(BlockchainContractError)
          else
            && reply.Ok? && reply.value.certificate == Some(id)
            && reply.value.result == ExpectedScan(s.chain, cert, Live(io))
  }

  /** What any scan is answered. */
  ghost predicate ScanAnswerOf(s: System, token: string, now: nat, io: Reads, reply: Reply<Report>) {
    match FindScan(s.db, token, now)
    case None => reply == Ok(Report(NotFound, None, None, None))
    case Some(q) => ScanAnswered(s, io, q, reply)
  }

  lemma ScanAnswer(s: System, token: string, now: nat, io: Reads, q: nat)
    requires Inv(s) && FindScan(s.db, token, now) == Some(q)
    ensures ScanAnswered(s, io, q, QrReply(s, token, now, io))
  {
    var id := s.db.qrs[q].certificate;
    assert QrOk(s.db, s.chain, id);
    CertificateFacts(s, id);
    TxHashLogged(s, id);
    ScanAnswerFrom(s, token, now, io, q);
  }

  lemma AnyScan(s: System, token: string, now: nat, io: Reads)
    requires Inv(s)
    ensures ScanAnswerOf(s, token, now, io, QrReply(s, token, now, io))
  {
    if FindScan(s.db, token, now).Some? {
      ScanAnswer(s, token, now, io, FindScan(s.db, token, now).value);
    }
  }

  /** What a scan's report says, in terms of the registry. */
  ghost predicate ScanExact(s: System, token: string, now: nat, io: Reads, report: Report) {
    && report.result != Tampered
    && (report.result == NotFound <==> FindScan(s.db, token, now).None?)
    && (report.result != NotFound && Live(io) ==>
          && report.certificate.Some? && report.certificate.value < |s.db.certs|
          && var cert := s.db.certs[report.certificate.value];
             report.result == if RevokedThere(s.chain, cert) then RevokedResult else Authentic)
  }

  lemma ScanAnswerIsExact(s: System, token: string, now: nat, io: Reads, reply: Reply<Report>)
    requires ScanAnswerOf(s, token, now, io, reply) && reply.Ok?
    ensures ScanExact(s, token, now, io, reply.value)
  {
  }

  /** A scan is never answered TAMPERED, and one that is not NOT_FOUND is exact when the chain answers. */
  lemma ScanIsExact(s: System, token: string, now: nat, io: Reads)
    requires Reachable(s) && QrReply(s, token, now, io).Ok?
    ensures ScanExact(s, token, now, io, QrReply(s, token, now, io).value)
  {
    ReachableOk(s);
    AnyScan(s, token, now, io);
    ScanAnswerIsExact(s, token, now, io, QrReply(s, token, now, io));
  }

  ghost predicate ScanRefines(weak: VerificationResult, full: VerificationResult) {
    && weak != Authentic
    && (weak == PendingChain ==> full == Authentic || full == RevokedResult)
    && (weak == RevokedResult ==> full == RevokedResult)
    && (weak == NotFound <==> full == NotFound)
  }

  lemma ScanAnswersRefine(s: System, token: string, now: nat, down: Reads, up: Reads,
                          weak: Reply<Report>, full: Reply<Report>)
    requires Chainless(down) && Live(up)
    requires ScanAnswerOf(s, token, now, down, weak) && ScanAnswerOf(s, token, now, up, full)
    ensures weak.Ok? && full.Ok? && ScanRefines(weak.value.result, full.value.result)
  {
  }

  lemma DegradedScanRefines(s: System, token: string, now: nat, down: Reads, up: Reads)
    requires Reachable(s) && Chainless(down) && Live(up)
    ensures QrReply(s, token, now, down).Ok? && QrReply(s, token, now, up).Ok?
    ensures ScanRefines(QrReply(s, token, now, down).value.result, QrReply(s, token, now, up).value.result)
  {
    ReachableOk(s);
    AnyScan(s, token, now, down);
    AnyScan(s, token, now, up);
    ScanAnswersRefine(s, token, now, down, up, QrReply(s, token, now, down), QrReply(s, token, now, up));
  }

  /** What a report about certificate `k` says once it is revoked. */
  ghost predicate SaysRevoked(s: System, k: nat, io: Reads, report: Report) {
    report.certificate == Some(k) && k < |s.db.certs| ==>
      && report.result != Authentic
      && (Live(io) || s.db.certs[k].status.Revoked? ==> report.result == RevokedResult)
  }

  lemma RevokedScan(s: System, k: nat, token: string, now: nat, io: Reads, reply: Reply<Report>)
    requires ScanAnswerOf(s, token, now, io, reply) && reply.Ok?
    requires k < |s.db.certs| && RevokedThere(s.chain, s.db.certs[k])
    ensures SaysRevoked(s, k, io, reply.value)
  {
  }

  /**
   * Revocation is final for scans too: once a certificate is revoked in either ledger, no later scan of
   * any of its codes is answered AUTHENTIC, and the answer is REVOKED whenever the chain can be read or
   * the database knows.
   */
  lemma ScanRevocationIsFinal(owner: Address, es: seq<Event>, more: seq<Event>, k: nat, token: string, now: nat,
                              io: Reads)
    requires k < |Run(Start(owner), es).db.certs|
    requires
      var s := Run(Start(owner), es);
      s.db.certs[k].status.Revoked? || RevokedThere(s.chain, s.db.certs[k])
    requires QrReply(Run(Start(owner), es + more), token, now, io).Ok?
    ensures
      var later := Run(Start(owner), es + more);
      SaysRevoked(later, k, io, QrReply(later, token, now, io).value)
  {
    RevokedForGood(owner, es, more, k);
    var later := Run(Start(owner), es + more);
    AnyScan(later, token, now, io);
    RevokedScan(later, k, token, now, io, QrReply(later, token, now, io));
  }

  // ----- The log -----

  lemma AnswersAreLogged(s: System, digest: Hash, hint: Option<string>, io: Reads, reply: Reply<Report>)
    requires AnswerOf(s, digest, hint, io, reply)
    ensures reply == Raise(IntegrityError) <==>
            FindCertificate(s.db, digest, hint).None? && hint.Some? && !Fits(hint.value, 50)
  {
  }

  lemma ScansAreLogged(s: System, token: string, now: nat, io: Reads, reply: Reply<Report>)
    requires ScanAnswerOf(s, token, now, io, reply)
    ensures reply != Raise(IntegrityError)
  {
  }

  /**
   * The constraints of verification_logs never refuse a row of either flow, with one exception: an
   * upload that finds nothing logs the verifier's hint, and a hint with anything but blanks past its
   * fiftieth character does not fit the column.
   */
  lemma LogNeverRefuses(s: System, verifier: nat, digest: Hash, hint: Option<string>, io: Reads, token: string,
                        now: nat)
    requires Reachable(s)
    ensures QrReply(s, token, now, io) != Raise(IntegrityError)
    ensures FileReply(s, verifier, digest, hint, io) == Raise(IntegrityError) <==>
            FindCertificate(s.db, digest, hint).None? && hint.Some? && !Fits(hint.value, 50)
  {
    ReachableOk(s);
    AnyScan(s, token, now, io);
    ScansAreLogged(s, token, now, io, QrReply(s, token, now, io));
    AnyAnswer(s, verifier, digest, hint, io);
    AnswersAreLogged(s, digest, hint, io, FileReply(s, verifier, digest, hint, io));
  }

  /** Fifty letters and one more are refused; fifty letters and a blank are answered, and logged without it. */
  lemma LongHints(owner: Address, verifier: nat, digest: Hash, io: Reads)
    ensures
      var letters := seq(50, i => 'X');
      && FileReply(Start(owner), verifier, digest, Some(letters + "X"), io) == Raise(IntegrityError)
      && CheckFileReply(Start(owner), verifier, digest, Some(letters + " "), io) ==
           (Start(owner).db.(logs := [NotFoundLog(Some(letters), verifier, digest)]),
            Ok(Report(NotFound, None, None, None)))
  {
    var letters := seq(50, i => 'X');
    var refused, cut := letters + "X", letters + " ";
    assert refused[50] == 'X';
    assert cut[..50] == letters;
    NotFoundAnswer(Start(owner), verifier, digest, Some(refused), io);
    NotFoundAnswer(Start(owner), verifier, digest, Some(cut), io);
    assert [] + [NotFoundLog(Some(letters), verifier, digest)] == [NotFoundLog(Some(letters), verifier, digest)];
  }

  /** What a stored row tells: an AUTHENTIC upload matched, a scan is never TAMPERED, a hash is a hash. */
  ghost predicate Telling(row: LogRow) {
    && LogAccepts(row) && Stored(row) == row
    && row.txHash != Some("")
    && (row.verificationMethod == FileUpload && row.result == Authentic ==>
          row.hashMatch == Some(true) && row.submittedHash == row.storedHash && row.blockchainVerified)
    && (row.verificationMethod == QrScan ==> row.result != Tampered && row.qr.Some?)
    && (row.result == Authentic ==> row.blockchainVerified)
  }

  ghost predicate AllTell(logs: seq<LogRow>) {
    forall i :: 0 <= i < |logs| ==> Telling(logs[i])
  }

  lemma LogTellsOn<T>(t: Tables, row: LogRow, value: T)
    requires AllTell(t.logs) && (LogAccepts(row) ==> Telling(Stored(row)))
    ensures AllTell(Log(t, row, value).0.logs)
  {
  }

  lemma UploadRowTells(cert: Certificate, id: nat, user: nat, digest: Hash, result: VerificationResult,
                       verified: bool, txHash: Option<string>)
    requires LogAccepts(UploadLog(cert, id, user, digest, result, verified, txHash))
    requires result == Authentic ==> verified
    ensures Telling(Stored(UploadLog(cert, id, user, digest, result, verified, txHash)))
  {
  }

  lemma FoundEntryIs(t: Tables, id: nat, user: nat, digest: Hash, service: Service)
    requires id < |t.certs| && FoundEntry(t, id, user, digest, service).Some?
    ensures
      var row := FoundEntry(t, id, user, digest, service).value.row;
      && row == UploadLog(t.certs[id], id, user, digest, row.result, row.blockchainVerified, row.txHash)
      && (row.result == Authentic ==> row.blockchainVerified)
  {
  }

  lemma NotFoundTells(hint: Option<string>, user: nat, digest: Hash)
    requires LogAccepts(NotFoundLog(hint, user, digest))
    ensures Telling(Stored(NotFoundLog(hint, user, digest)))
  {
  }

  lemma EntryTells(t: Tables, verifier: nat, digest: Hash, hint: Option<string>, service: Service, row: LogRow)
    requires UploadEntry(t, verifier, digest, hint, service).Some?
    requires row == UploadEntry(t, verifier, digest, hint, service).value.row && LogAccepts(row)
    ensures Telling(Stored(row))
  {
    match FindCertificate(t, digest, hint)
    case None => NotFoundTells(hint, verifier, digest);
    case Some(id) =>
      FoundEntryIs(t, id, verifier, digest, service);
      UploadRowTells(t.certs[id], id, verifier, digest, row.result, row.blockchainVerified, row.txHash);
  }

  /** The CHECK constraints alone make a committed row of either flow tell the truth about its result. */
  lemma UploadTells(t: Tables, verifier: nat, digest: Hash, hint: Option<string>, service: Service)
    requires AllTell(t.logs)
    ensures AllTell(VerifyUpload(t, verifier, digest, hint, service).0.logs)
  {
    var entry := UploadEntry(t, verifier, digest, hint, service);
    if entry.Some? {
      if LogAccepts(entry.value.row) {
        EntryTells(t, verifier, digest, hint, service, entry.value.row);
      }
      LogTellsOn(t, entry.value.row, entry.value.report);
    }
  }

  lemma ScanTells(t: Tables, token: string, now: nat, service: Service)
    requires AllTell(t.logs)
    ensures AllTell(VerifyQr(t, token, now, service).0.logs)
  {
    var t' := VerifyQr(t, token, now, service).0;
    if t' != t {
      assert t'.logs == t.logs + [t'.logs[|t.logs|]];
      assert Telling(t'.logs[|t.logs|]);
    }
  }

  lemma StepTells(s: System, e: Event)
    requires AllTell(s.db.logs)
    ensures AllTell(Step(s, e).db.logs)
  {
    match e
    case CheckFile(verifier, digest, hint, io) =>
      UploadTells(s.db, verifier, digest, hint, ServiceOf(s, FindCertificate(s.db, digest, hint), digest, io));
    case Scan(token, now, io) =>
      ScanTells(s.db, token, now, ScanService(s, token, now, io));
    case _ =>
      StepFrame(s, e);
  }

  /** Every row that any run commits to the verification log. */
  lemma {:induction false} LogTells(owner: Address, es: seq<Event>)
    ensures AllTell(Run(Start(owner), es).db.logs)
  {
    if es == [] {
    } else {
      LogTells(owner, es[..|es| - 1]);
      StepTells(Run(Start(owner), es[..|es| - 1]), es[|es| - 1]);
    }
  }

  // ----- QR conservation -----

  /**
   * In every reachable state a certificate has at most one active QR code, codes exist only for
   * certificates that were confirmed, and a code's counter is the number of log rows that carry its id.
   */
  lemma QrConservation(s: System, q: nat)
    requires Reachable(s) && q < |s.db.qrs|
    ensures s.db.qrs[q].scans == ScansOf(s.db.logs, q)
    ensures s.db.qrs[q].certificate < |s.db.certs|
    ensures
      var cert := s.db.certs[s.db.qrs[q].certificate];
      && (cert.status.Confirmed? || cert.status.Revoked?) && OnChain(s.chain, cert)
      && exists i: nat :: OnlyStoreRow(s.db, s.db.qrs[q].certificate, i)
    ensures forall p :: 0 <= p < |s.db.qrs| && p != q && s.db.qrs[p].certificate == s.db.qrs[q].certificate ==>
              !(s.db.qrs[p].isActive && s.db.qrs[q].isActive)
  {
    ReachableOk(s);
    assert QrOk(s.db, s.chain, s.db.qrs[q].certificate);
    SettledRow(s, s.db.qrs[q].certificate);
  }
}
