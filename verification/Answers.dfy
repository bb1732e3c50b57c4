// What a verifier is told, and what is logged about it, over the rows of the tables: which certificate
// an upload is judged against, which codes a scan accepts, and that a replaced code is dead for good.
module Answers {
  import opened Basics
  import opened HashCodec
  import opened ChainReader
  import opened Tables
  import opened Verification
  import opened Protocol
  import opened Shapes
  import opened Invariants
  import opened Agreement
  import opened Verdicts
  import opened Replies
  import R = Registry
  import Q = QrCodes

  // ----- Uploads -----

  /** The hint is the UID of certificate `k`. */
  ghost predicate Named(t: Tables, hint: Option<string>, k: nat) {
    hint.Some? && hint.value != "" && k < |t.certs| && t.certs[k].uid == hint.value
  }

  /** The certificate that an upload is about: the one named, or if none is named, the one with the digest. */
  ghost predicate About(t: Tables, digest: Hash, hint: Option<string>, k: nat) {
    && k < |t.certs|
    && (Named(t, hint, k) || (t.certs[k].hash == digest && forall j: nat :: !Named(t, hint, j)))
  }

  lemma FindsIt(t: Tables, digest: Hash, hint: Option<string>, k: nat)
    requires Distinct(t.certs) && About(t, digest, hint, k)
    ensures FindCertificate(t, digest, hint) == Some(k)
  {
    if Named(t, hint, k) {
      var found := FindUid(t.certs, hint.value);
      assert found.Some?;
    } else {
      assert hint.Some? && hint.value != "" && FindUid(t.certs, hint.value).Some? ==>
          Named(t, hint, FindUid(t.certs, hint.value).value);
      HashIsUnique(t.certs, FindHash(t.certs, digest).value, k);
    }
  }

  lemma FoundIsAbout(t: Tables, digest: Hash, hint: Option<string>)
    requires FindCertificate(t, digest, hint).Some?
    ensures About(t, digest, hint, FindCertificate(t, digest, hint).value)
  {
    var k := FindCertificate(t, digest, hint).value;
    if hint.Some? && hint.value != "" && FindUid(t.certs, hint.value).Some? {
      assert Named(t, hint, k);
    } else {
      assert forall j: nat :: !Named(t, hint, j);
    }
  }

  lemma FindsNothing(t: Tables, digest: Hash, hint: Option<string>)
    requires forall k: nat :: !About(t, digest, hint, k)
    ensures FindCertificate(t, digest, hint).None?
  {
    if FindCertificate(t, digest, hint).Some? {
      FoundIsAbout(t, digest, hint);
    }
  }

  ghost predicate Says(reply: Reply<Report>, k: nat, result: VerificationResult) {
    reply.Ok? && reply.value.certificate == Some(k) && reply.value.result == result
  }

  /** The answer about certificate `k`, in terms of its row, the registry and how the reads go. */
  ghost predicate JudgedOn(s: System, digest: Hash, io: Reads, k: nat, reply: Reply<Report>)
    requires k < |s.db.certs|
  {
    var cert := s.db.certs[k];
    match cert.status
    case Revoked => Says(reply, k, RevokedResult)
    case Confirmed =>
      if Live(io) then
        Says(reply, k, if RevokedThere(s.chain, cert) then RevokedResult
                       else if digest == cert.hash then Authentic else Tampered)
      else if Chainless(io) then Says(reply, k, if digest == cert.hash then PendingChain else Tampered)
      else reply == Raise(BlockchainContractError)
    case _ => Says(reply, k, PendingChain)
  }

  lemma AnsweredIsJudged(s: System, digest: Hash, io: Reads, k: nat, reply: Reply<Report>)
    requires Answered(s, digest, io, k, reply)
    ensures JudgedOn(s, digest, io, k, reply)
  {
  }

  /**
   * An upload is judged against the certificate it names, or if its hint names none, against the one
   * with its digest: so an altered document that names its UID is TAMPERED, not NOT_FOUND.
   */
  lemma UploadIsJudged(s: System, verifier: nat, digest: Hash, hint: Option<string>, io: Reads, k: nat)
    requires Reachable(s) && About(s.db, digest, hint, k)
    ensures JudgedOn(s, digest, io, k, FileReply(s, verifier, digest, hint, io))
  {
    ReachableOk(s);
    FindsIt(s.db, digest, hint, k);
    UploadAnswer(s, verifier, digest, hint, io, k);
    AnsweredIsJudged(s, digest, io, k, FileReply(s, verifier, digest, hint, io));
  }

  /** Nothing but blanks after the fiftieth character. */
  ghost predicate HintFits(hint: Option<string>) {
    hint.Some? ==> forall i :: 50 <= i < |hint.value| ==> hint.value[i] == ' '
  }

  lemma Unmatched(s: System, verifier: nat, digest: Hash, hint: Option<string>, io: Reads)
    requires forall k: nat :: !About(s.db, digest, hint, k)
    ensures FileReply(s, verifier, digest, hint, io) ==
            if HintFits(hint) then Ok(Report(NotFound, None, None, None)) else Raise(IntegrityError)
  {
    FindsNothing(s.db, digest, hint);
    NotFoundAnswer(s, verifier, digest, hint, io);
  }

  /** NOT_FOUND if and only if no certificate is named or has the digest, and the hint fits the log. */
  lemma UploadNotFound(s: System, verifier: nat, digest: Hash, hint: Option<string>, io: Reads)
    requires Reachable(s)
    ensures
      var reply := FileReply(s, verifier, digest, hint, io);
      (reply.Ok? && reply.value.result == NotFound) <==>
        && (forall k :: 0 <= k < |s.db.certs| ==> !Named(s.db, hint, k) && s.db.certs[k].hash != digest)
        && HintFits(hint)
  {
    if k: nat :| About(s.db, digest, hint, k) {
      UploadIsJudged(s, verifier, digest, hint, io, k);
    } else {
      Unmatched(s, verifier, digest, hint, io);
      forall k: nat | k < |s.db.certs|
        ensures !Named(s.db, hint, k) && s.db.certs[k].hash != digest
      {
        NobodyNamed(s.db, digest, hint, k);
      }
    }
  }

  lemma NobodyNamed(t: Tables, digest: Hash, hint: Option<string>, k: nat)
    requires k < |t.certs| && forall j: nat :: !About(t, digest, hint, j)
    ensures !Named(t, hint, k) && t.certs[k].hash != digest
  {
    forall j: nat
      ensures !Named(t, hint, j)
    {
      assert !About(t, digest, hint, j);
    }
    assert !About(t, digest, hint, k);
  }

  // ----- Proof and evidence of an upload -----

  /** The evidence about certificate `k`, and whether a proof comes with it. */
  ghost predicate Shown(s: System, digest: Hash, io: Reads, k: nat, reply: Reply<Report>)
    requires k < |s.db.certs|
  {
    var cert := s.db.certs[k];
    var asked := cert.status.Confirmed? && Live(io);
    && reply.Ok? && (reply.value.proof.Some? <==> asked)
    && reply.value.evidence ==
         Some(Evidence(digest, cert.hash,
                       cert.status.Confirmed? && digest == cert.hash && !(asked && RevokedThere(s.chain, cert))))
  }

  lemma ShownUnasked(s: System, verifier: nat, digest: Hash, hint: Option<string>, io: Reads, k: nat)
    requires FindCertificate(s.db, digest, hint) == Some(k) && FileReply(s, verifier, digest, hint, io).Ok?
    requires s.db.certs[k].status.Confirmed? ==> IsTxHash(StoreTxHash(s.db.txs, k)) && s.db.certs[k].isActive
    requires !(s.db.certs[k].status.Confirmed? && Live(io))
    ensures Shown(s, digest, io, k, FileReply(s, verifier, digest, hint, io))
  {
    VerdictIs(s, k, digest, io);
    if s.db.certs[k].status.Confirmed? {
      UploadReplyIs(s.db, verifier, digest, hint, ServiceOf(s, Some(k), digest, io), k);
    }
  }

  /**
   * An answer about certificate `k` shows both digests and says that they match only for a CONFIRMED
   * certificate that the chain, when asked, does not call revoked. It has a proof exactly when the chain
   * was asked and answered; then the proof quotes the registry and the settled transaction.
   */
  lemma UploadIsShown(s: System, verifier: nat, digest: Hash, hint: Option<string>, io: Reads, k: nat)
    requires Reachable(s) && About(s.db, digest, hint, k) && FileReply(s, verifier, digest, hint, io).Ok?
    ensures Shown(s, digest, io, k, FileReply(s, verifier, digest, hint, io))
    ensures s.db.certs[k].status.Confirmed? && Live(io) ==>
              ProofShown(s, k, FileReply(s, verifier, digest, hint, io))
  {
    ReachableOk(s);
    FindsIt(s.db, digest, hint, k);
    CertificateFacts(s, k);
    if s.db.certs[k].status.Confirmed? && Live(io) {
      UploadProof(s, verifier, digest, hint, io, k);
    } else {
      ShownUnasked(s, verifier, digest, hint, io, k);
    }
  }

  /** The proof quotes the registry's record and the one settled store row of certificate `k`. */
  ghost predicate ProofShown(s: System, k: nat, reply: Reply<Report>)
    requires k < |s.db.certs|
  {
    && reply.Ok? && reply.value.proof.Some? && s.db.certs[k].uid in s.chain.records
    && var proof, record := reply.value.proof.value, s.chain.records[s.db.certs[k].uid];
       && Lower(proof.issuer) == record.issuer && proof.storedAt == record.issuedAt
       && exists i: nat ::
            && OnlyStoreRow(s.db, k, i)
            && s.db.txs[i].txHash == Some(proof.txHash) && s.db.txs[i].blockNumber == Some(proof.blockNumber)
  }

  // ----- The log of uploads -----

  lemma EntryFields(t: Tables, k: nat, user: nat, digest: Hash, service: Service)
    requires k < |t.certs| && FoundEntry(t, k, user, digest, service).Some?
    ensures
      var entry, cert := FoundEntry(t, k, user, digest, service).value, t.certs[k];
      entry.row == LogRow(Some(k), Some(cert.uid), Some(user), None, FileUpload, entry.report.result, Some(digest),
                          Some(cert.hash), Some(digest == cert.hash),
                          cert.status.Confirmed? && Consult(service).Online?,
                          if cert.status.Confirmed? then Some(StoreTxHash(t.txs, k)) else None)
  {
  }

  lemma UidIsKept(cert: Certificate, row: LogRow)
    requires row.uidQueried == Some(cert.uid)
    ensures Stored(row) == row
  {
  }

  /** The row about certificate `k` that an answered upload leaves behind. */
  ghost predicate LoggedUpload(s: System, logs: seq<LogRow>, verifier: nat, digest: Hash, io: Reads, k: nat,
                               result: VerificationResult, txHash: Option<string>)
    requires k < |s.db.certs|
  {
    var cert := s.db.certs[k];
    logs == s.db.logs + [LogRow(Some(k), Some(cert.uid), Some(verifier), None, FileUpload, result, Some(digest),
                                Some(cert.hash), Some(digest == cert.hash), cert.status.Confirmed? && Live(io), txHash)]
  }

  lemma UploadLoggedFrom(s: System, verifier: nat, digest: Hash, hint: Option<string>, io: Reads, k: nat)
    requires FindCertificate(s.db, digest, hint) == Some(k)
    requires FileReply(s, verifier, digest, hint, io).Ok?
    ensures
      var (t', reply) := CheckFileReply(s, verifier, digest, hint, io);
      && t' == s.db.(logs := t'.logs)
      && LoggedUpload(s, t'.logs, verifier, digest, io, k, reply.value.result,
                      if s.db.certs[k].status.Confirmed? then Some(StoreTxHash(s.db.txs, k)) else None)
  {
    var service := ServiceOf(s, Some(k), digest, io);
    EntryFields(s.db, k, verifier, digest, service);
    UidIsKept(s.db.certs[k], FoundEntry(s.db, k, verifier, digest, service).value.row);
    VerdictIs(s, k, digest, io);
  }

  /** The store transaction's hash, for a certificate that has been confirmed. */
  ghost predicate SettledHash(t: Tables, k: nat, txHash: Option<string>) {
    exists i: nat :: OnlyStoreRow(t, k, i) && t.txs[i].txHash == txHash
  }

  /**
   * An answered upload adds one log row and changes nothing else: who asked, about which certificate, with
   * which digest and answer, whether the digests agree, whether the chain was asked, and the hash of the
   * settled store transaction of a CONFIRMED certificate.
   */
  lemma UploadIsLogged(s: System, verifier: nat, digest: Hash, hint: Option<string>, io: Reads, k: nat)
    requires Reachable(s) && About(s.db, digest, hint, k) && FileReply(s, verifier, digest, hint, io).Ok?
    ensures
      var (t', reply) := CheckFileReply(s, verifier, digest, hint, io);
      && t' == s.db.(logs := t'.logs)
      && exists txHash ::
           && LoggedUpload(s, t'.logs, verifier, digest, io, k, reply.value.result, txHash)
           && (if s.db.certs[k].status.Confirmed? then SettledHash(s.db, k, txHash) else txHash.None?)
  {
    ReachableOk(s);
    FindsIt(s.db, digest, hint, k);
    UploadLoggedFrom(s, verifier, digest, hint, io, k);
    CertificateFacts(s, k);
    if s.db.certs[k].status.Confirmed? {
      TxHashLogged(s, k);
    }
  }

  /** An upload that raises logs nothing; one that finds nothing logs the question. */
  lemma OtherUploads(s: System, verifier: nat, digest: Hash, hint: Option<string>, io: Reads)
    ensures
      var (t', reply) := CheckFileReply(s, verifier, digest, hint, io);
      && (reply.Raise? ==> t' == s.db)
      && (reply.Ok? && (forall k: nat :: !About(s.db, digest, hint, k)) ==>
            exists asked ::
              && (hint.None? ==> asked == None)
              && (hint.Some? ==> asked.Some? && |asked.value| <= 50 && asked.value <= hint.value)
              && t' == s.db.(logs := s.db.logs + [LogRow(None, asked, Some(verifier), None, FileUpload, NotFound,
                                                         Some(digest), None, None, false, None)]))
  {
    if forall k: nat :: !About(s.db, digest, hint, k) {
      FindsNothing(s.db, digest, hint);
      var asked := Stored(NotFoundLog(hint, verifier, digest)).uidQueried;
      assert Stored(NotFoundLog(hint, verifier, digest)) ==
             LogRow(None, asked, Some(verifier), None, FileUpload, NotFound, Some(digest), None, None, false, None);
    }
  }

  // ----- Scans -----

  /** A code that a scan of `token` may use: active, not expired, its certificate present. */
  ghost predicate Usable(t: Tables, token: string, now: nat, q: nat) {
    && q < |t.qrs| && t.qrs[q].token == token && t.qrs[q].isActive
    && (t.qrs[q].expiresAt.Some? ==> t.qrs[q].expiresAt.value >= now)
    && t.qrs[q].certificate < |t.certs|
  }

  ghost predicate TokensDistinct(qrs: seq<Qr>) {
    forall p, q :: 0 <= p < q < |qrs| ==> qrs[p].token != qrs[q].token
  }

  /** Codes are never removed, keep their token and certificate, and once inactive stay so. */
  ghost predicate CodesOnward(qrs: seq<Qr>, qrs': seq<Qr>) {
    && |qrs| <= |qrs'|
    && forall q :: 0 <= q < |qrs| ==>
         && qrs'[q].token == qrs[q].token && qrs'[q].certificate == qrs[q].certificate
         && (qrs'[q].isActive ==> qrs[q].isActive)
  }

  lemma GenerateCodes(t: Tables, id: nat, token: string)
    requires TokensDistinct(t.qrs)
    ensures var t' := Q.Generate(t, id, token).0; TokensDistinct(t'.qrs) && CodesOnward(t.qrs, t'.qrs)
  {
  }

  lemma ScanCodes(t: Tables, token: string, now: nat, service: Service)
    requires TokensDistinct(t.qrs)
    ensures var t' := VerifyQr(t, token, now, service).0; TokensDistinct(t'.qrs) && CodesOnward(t.qrs, t'.qrs)
  {
  }

  lemma StepCodes(s: System, e: Event)
    requires TokensDistinct(s.db.qrs)
    ensures TokensDistinct(Step(s, e).db.qrs) && CodesOnward(s.db.qrs, Step(s, e).db.qrs)
  {
    StepFrame(s, e);
    match e
    case GenerateQr(id, token) => GenerateCodes(s.db, id, token);
    case Scan(token, now, io) => ScanCodes(s.db, token, now, ScanService(s, token, now, io));
    case _ =>
  }

  lemma {:induction false} RunCodes(s: System, es: seq<Event>)
    requires TokensDistinct(s.db.qrs)
    ensures TokensDistinct(Run(s, es).db.qrs) && CodesOnward(s.db.qrs, Run(s, es).db.qrs)
  {
    if es == [] {
    } else {
      RunCodes(s, es[..|es| - 1]);
      StepCodes(Run(s, es[..|es| - 1]), es[|es| - 1]);
    }
  }

  lemma ReachableCodes(s: System)
    requires Reachable(s)
    ensures TokensDistinct(s.db.qrs)
  {
    var owner, es :| s == Run(Start(owner), es);
    RunCodes(Start(owner), es);
  }

  lemma FindsCode(t: Tables, token: string, now: nat, q: nat)
    requires TokensDistinct(t.qrs) && Usable(t, token, now, q)
    ensures FindScan(t, token, now) == Some(q)
  {
    var p := FindToken(t.qrs, token).value;
    assert p == q;
  }

  lemma FindsNoCode(t: Tables, token: string, now: nat)
    requires forall q: nat :: !Usable(t, token, now, q)
    ensures FindScan(t, token, now).None?
  {
    var found := FindToken(t.qrs, token);
    if found.Some? {
      assert !Usable(t, token, now, found.value);
    }
  }

  /** The answer to a scan of a code of certificate `k`. */
  ghost predicate ScanJudgedOn(s: System, io: Reads, k: nat, reply: Reply<Report>)
    requires k < |s.db.certs|
  {
    var cert := s.db.certs[k];
    match cert.status
    case Revoked => Says(reply, k, RevokedResult)
    case Confirmed =>
      if Live(io) then Says(reply, k, if RevokedThere(s.chain, cert) then RevokedResult else Authentic)
      else if Chainless(io) then Says(reply, k, PendingChain)
      else reply == Raise(BlockchainContractError)
    case _ => false
  }

  lemma ScanAnsweredIsJudged(s: System, io: Reads, q: nat, reply: Reply<Report>)
    requires ScanAnswered(s, io, q, reply)
    ensures ScanJudgedOn(s, io, s.db.qrs[q].certificate, reply)
  {
  }

  /** A usable code answers for its certificate, which is CONFIRMED or REVOKED. */
  lemma ScanIsJudged(s: System, token: string, now: nat, io: Reads, q: nat)
    requires Reachable(s) && Usable(s.db, token, now, q)
    ensures ScanJudgedOn(s, io, s.db.qrs[q].certificate, QrReply(s, token, now, io))
  {
    ReachableOk(s);
    ReachableCodes(s);
    FindsCode(s.db, token, now, q);
    ScanAnswer(s, token, now, io, q);
    ScanAnsweredIsJudged(s, io, q, QrReply(s, token, now, io));
  }

  /** Without a usable code the answer is NOT_FOUND, and nothing is counted or logged. */
  lemma UnusableScan(s: System, token: string, now: nat, io: Reads)
    requires forall q: nat :: !Usable(s.db, token, now, q)
    ensures ScanReply(s, token, now, io) == (s.db, Ok(Report(NotFound, None, None, None)))
  {
    FindsNoCode(s.db, token, now);
  }

  /** A scan is NOT_FOUND if and only if no code with its token is active, unexpired and about a certificate. */
  lemma ScanNotFound(s: System, token: string, now: nat, io: Reads)
    requires Reachable(s)
    ensures
      QrReply(s, token, now, io) == Ok(Report(NotFound, None, None, None)) <==>
      forall q: nat :: !Usable(s.db, token, now, q)
  {
    if q: nat :| Usable(s.db, token, now, q) {
      ScanIsJudged(s, token, now, io, q);
    } else {
      UnusableScan(s, token, now, io);
    }
  }

  /** What scanning code `q` leaves behind; `asked` says whether the chain answered, `txHash` what is quoted. */
  ghost predicate LoggedScan(t: Tables, call: (Tables, Reply<Report>), q: nat, asked: bool, txHash: Option<string>)
    requires q < |t.qrs| && t.qrs[q].certificate < |t.certs|
  {
    var (t', reply) := call;
    var id := t.qrs[q].certificate;
    if reply.Raise? then t' == t
    else
      && t' == t.(qrs := t.qrs[q := t.qrs[q].(scans := t.qrs[q].scans + 1)], logs := t'.logs)
      && t'.logs == t.logs + [LogRow(Some(id), Some(t.certs[id].uid), None, Some(q), QrScan, reply.value.result, None,
                                     Some(t.certs[id].hash), None, asked, txHash)]
  }

  lemma ScanLoggedFrom(t: Tables, token: string, now: nat, service: Service, q: nat)
    requires FindScan(t, token, now) == Some(q)
    ensures
      var id := t.qrs[q].certificate;
      LoggedScan(t, VerifyQr(t, token, now, service), q, ScanVerdict(t.certs[id], service).Online?,
                 Some(StoreTxHash(t.txs, id)))
  {
    var id := t.qrs[q].certificate;
    var cert := t.certs[id];
    var v := ScanVerdict(cert, service);
    UidIsKept(cert, ScanLog(cert, id, q, ScanResult(cert, v), v.Online?, StoreTxHash(t.txs, id)));
  }

  lemma AskedIs(s: System, token: string, now: nat, io: Reads, q: nat)
    requires FindScan(s.db, token, now) == Some(q)
    ensures
      var cert := s.db.certs[s.db.qrs[q].certificate];
      ScanVerdict(cert, ScanService(s, token, now, io)).Online? <==> cert.status.Confirmed? && Live(io)
  {
    VerdictIs(s, s.db.qrs[q].certificate, s.db.certs[s.db.qrs[q].certificate].hash, io);
  }

  /**
   * An answered scan adds one to its code and one log row with the code, the certificate, the answer and
   * the hash of the settled store transaction; a scan that raises changes nothing.
   */
  lemma ScanIsLogged(s: System, token: string, now: nat, io: Reads, q: nat)
    requires Reachable(s) && Usable(s.db, token, now, q)
    ensures
      var id := s.db.qrs[q].certificate;
      exists txHash ::
        && SettledHash(s.db, id, txHash)
        && LoggedScan(s.db, ScanReply(s, token, now, io), q, s.db.certs[id].status.Confirmed? && Live(io), txHash)
  {
    var id := s.db.qrs[q].certificate;
    ReachableOk(s);
    ReachableCodes(s);
    FindsCode(s.db, token, now, q);
    AskedIs(s, token, now, io, q);
    ScanLoggedFrom(s.db, token, now, ScanService(s, token, now, io), q);
    assert QrOk(s.db, s.chain, id);
    TxHashLogged(s, id);
    assert SettledHash(s.db, id, Some(StoreTxHash(s.db.txs, id)));
  }

  lemma InactiveIsUnusable(t: Tables, token: string, now: nat, q: nat)
    requires TokensDistinct(t.qrs) && q < |t.qrs| && t.qrs[q].token == token && !t.qrs[q].isActive
    ensures forall p: nat :: !Usable(t, token, now, p)
  {
  }

  /**
   * A replaced code is dead for good: after a code has been generated for a certificate, a scan of any
   * earlier code of that certificate is NOT_FOUND in every later state, whatever happens meanwhile.
   */
  lemma ReplacedForGood(owner: Address, es: seq<Event>, id: nat, newToken: string, more: seq<Event>,
                        q: nat, now: nat, io: Reads)
    requires Q.Generate(Run(Start(owner), es).db, id, newToken).1.Ok?
    requires q < |Run(Start(owner), es).db.qrs| && Run(Start(owner), es).db.qrs[q].certificate == id
    ensures
      var later := Run(Step(Run(Start(owner), es), GenerateQr(id, newToken)), more);
      QrReply(later, Run(Start(owner), es).db.qrs[q].token, now, io) == Ok(Report(NotFound, None, None, None))
  {
    var s := Run(Start(owner), es);
    var after := Step(s, GenerateQr(id, newToken));
    var later := Run(after, more);
    GenerateAdds(s, id, newToken);
    RunCodes(Start(owner), es);
    StepCodes(s, GenerateQr(id, newToken));
    RunCodes(after, more);
    InactiveIsUnusable(later.db, s.db.qrs[q].token, now, q);
    UnusableScan(later, s.db.qrs[q].token, now, io);
  }

  // ----- The proof of a scan -----

  /** With the chain read, a scan of a CONFIRMED certificate quotes the registry and the settled transaction. */
  lemma ScanProof(s: System, token: string, now: nat, io: Reads, q: nat)
    requires Reachable(s) && Usable(s.db, token, now, q) && Live(io)
    requires s.db.certs[s.db.qrs[q].certificate].status.Confirmed?
    ensures ProofShown(s, s.db.qrs[q].certificate, QrReply(s, token, now, io))
  {
    var id := s.db.qrs[q].certificate;
    ReachableOk(s);
    ReachableCodes(s);
    FindsCode(s.db, token, now, q);
    CertificateFacts(s, id);
    TxHashLogged(s, id);
    R.MineKeepsLedger(s.chain, io.between);
    ScanProofFrom(s, token, now, io, q);
  }

  lemma ScanProofFrom(s: System, token: string, now: nat, io: Reads, q: nat)
    requires FindScan(s.db, token, now) == Some(q) && Live(io)
    requires R.Extends(s.chain, R.Mine(s.chain, io.between))
    requires
      var id := s.db.qrs[q].certificate;
      && s.db.certs[id].status.Confirmed? && s.db.certs[id].isActive && OnChain(s.chain, s.db.certs[id])
      && IsTxHash(StoreTxHash(s.db.txs, id))
    ensures
      var id := s.db.qrs[q].certificate;
      var cert, reply := s.db.certs[id], QrReply(s, token, now, io);
      && reply.Ok? && reply.value.proof.Some?
      && Lower(reply.value.proof.value.issuer) == s.chain.records[cert.uid].issuer
      && reply.value.proof.value.storedAt == s.chain.records[cert.uid].issuedAt
      && reply.value.proof.value.txHash == StoreTxHash(s.db.txs, id)
      && reply.value.proof.value.blockNumber == StoreBlockNumber(s.db.txs, id)
  {
    var id := s.db.qrs[q].certificate;
    var cert := s.db.certs[id];
    VerdictIs(s, id, cert.hash, io);
    ChainSays(s.chain, cert, cert.hash);
    ScanReplyIs(s.db, token, now, ServiceOf(s, Some(id), cert.hash, io), q);
    LowerUndoesRecase(s.chain.records[cert.uid].issuer, io.mask);
  }
}
