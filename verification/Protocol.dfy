// The two ledgers together: the store and the registry as one transition system. A backend call is
// one event; the registry moves by itself, also between the two reads of one call.
module Protocol {
  import opened Basics
  import opened HashCodec
  import opened ChainReader
  import opened Tables
  import opened UidAllocator
  import R = Registry
  import I = Issuance
  import V = Revocation
  import Q = QrCodes
  import U = Universities
  import opened Verification

  datatype System = System(db: Tables, chain: R.Chain)

  /** How the two chain reads of a call go, and what is mined in between. */
  datatype Reads = Reads(service: bool, first: Link, between: seq<R.Op>, second: Link, mask: seq<bool>)

  datatype Event =
    | Mined(op: R.Op)
    | Register(code: string)
    | VerifyUni(uni: nat)
    | SetWallet(user: Staff, uni: nat, wallet: string)
    | Upload(user: Staff, studentKnown: bool, year: nat, digest: Hash)
    | Confirm(user: Staff, id: nat, txHash: string, receipt: Rpc<Option<Receipt>>, io: Reads)
    | GenerateQr(id: nat, token: string)
    | Initiate(user: Staff, id: nat, reason: string, io: Reads)
    | ConfirmRevoke(user: Staff, id: nat, txHash: string, receipt: Rpc<Option<Receipt>>, io: Reads, now: nat)
    | CheckFile(verifier: nat, digest: Hash, hint: Option<string>, io: Reads)
    | Scan(token: string, now: nat, io: Reads)

  /** The record of certificate `id` as the second read of a call sees it. */
  function SecondRecord(s: System, id: nat, io: Reads): Rpc<Option<ChainRecord>> {
    if id < |s.db.certs| then
      Ask(io.second, GetRecord(R.Mine(s.chain, io.between), s.db.certs[id].uid, io.mask))
    else Unreachable
  }

  /** The answers of verify_certificate, at the first read, and get_certificate_record, at the second. */
  function ServiceOf(s: System, id: Option<nat>, digest: Hash, io: Reads): Service
    requires id.Some? ==> id.value < |s.db.certs|
  {
    if !io.service || id.None? then NoService
    else Service(Ask(io.first, Verify(s.chain, s.db.certs[id.value].uid, digest)),
                 SecondRecord(s, id.value, io))
  }

  /** The answers of is_authorized_issuer and get_certificate_record. */
  function PreflightOf(s: System, user: Staff, id: nat, io: Reads): Option<V.Preflight> {
    if !io.service then None
    else Some(V.Preflight(Ask(io.first, Authorized(s, user.university)), SecondRecord(s, id, io)))
  }

  function Authorized(s: System, uni: nat): bool {
    && uni < |s.db.unis| && s.db.unis[uni].wallet.Some?
    && Lower(s.db.unis[uni].wallet.value) in s.chain.issuers
  }

  function CheckFileReply(s: System, verifier: nat, digest: Hash, hint: Option<string>, io: Reads):
      (Tables, Reply<Report>)
  {
    VerifyUpload(s.db, verifier, digest, hint, ServiceOf(s, FindCertificate(s.db, digest, hint), digest, io))
  }

  function ScanService(s: System, token: string, now: nat, io: Reads): Service {
    var found := FindScan(s.db, token, now);
    var id := if found.None? then None else Some(s.db.qrs[found.value].certificate);
    if id.None? then NoService else ServiceOf(s, id, s.db.certs[id.value].hash, io)
  }

  function ScanReply(s: System, token: string, now: nat, io: Reads): (Tables, Reply<Report>) {
    VerifyQr(s.db, token, now, ScanService(s, token, now, io))
  }

  function DbAfter(s: System, e: Event): Tables {
    match e
    case Mined(_) => s.db
    case Register(code) => U.Register(s.db, code).0
    case VerifyUni(uni) => U.VerifyUni(s.db, uni).0
    case SetWallet(user, uni, wallet) => U.SetWallet(s.db, user, uni, wallet).0
    case Upload(user, known, year, digest) => I.Upload(s.db, user, known, year, digest).0
    case Confirm(user, id, txHash, receipt, io) =>
      I.Confirm(s.db, user, id, txHash, receipt, SecondRecord(s, id, io)).0
    case GenerateQr(id, token) => Q.Generate(s.db, id, token).0
    case Initiate(user, id, reason, io) => V.Initiate(s.db, user, id, reason, PreflightOf(s, user, id, io)).0
    case ConfirmRevoke(user, id, txHash, receipt, io, now) =>
      V.ConfirmRevoke(s.db, user, id, txHash, receipt, SecondRecord(s, id, io), now).0
    case CheckFile(verifier, digest, hint, io) => CheckFileReply(s, verifier, digest, hint, io).0
    case Scan(token, now, io) => ScanReply(s, token, now, io).0
  }

  function ChainAfter(s: System, e: Event): R.Chain {
    match e
    case Mined(op) => R.Apply(s.chain, op)
    case Confirm(_, _, _, _, io) => R.Mine(s.chain, io.between)
    case Initiate(_, _, _, io) => R.Mine(s.chain, io.between)
    case ConfirmRevoke(_, _, _, _, io, _) => R.Mine(s.chain, io.between)
    case CheckFile(_, _, _, io) => R.Mine(s.chain, io.between)
    case Scan(_, _, io) => R.Mine(s.chain, io.between)
    case _ => s.chain
  }

  function Step(s: System, e: Event): System {
    System(DbAfter(s, e), ChainAfter(s, e))
  }

  function Run(s: System, es: seq<Event>): System {
    if es == [] then s else Step(Run(s, es[..|es| - 1]), es[|es| - 1])
  }

  function Start(owner: Address): System {
    System(Tables([], [], [], [], []), R.Deploy(owner))
  }

  lemma {:induction false} RunAppend(s: System, es: seq<Event>, more: seq<Event>)
    ensures Run(s, es + more) == Run(Run(s, es), more)
  {
    if more == [] {
      assert es + more == es;
    } else {
      var n := |more| - 1;
      assert (es + more)[..|es + more| - 1] == es + more[..n];
      RunAppend(s, es, more[..n]);
    }
  }

  // ----- The invariant -----

  /** The digest of the certificate is what the registry holds under its UID. */
  ghost predicate OnChain(c: R.Chain, cert: Certificate) {
    cert.uid in c.records && Bytes32ToHash(c.records[cert.uid].hash) == cert.hash
  }

  ghost predicate RevokedThere(c: R.Chain, cert: Certificate) {
    cert.uid in c.records && c.records[cert.uid].revoked
  }

  /** A university that has issued something keeps a wallet. */
  ghost predicate IssuersOk(t: Tables) {
    forall k :: 0 <= k < |t.certs| ==>
      t.certs[k].university < |t.unis| && t.unis[t.certs[k].university].wallet.Some?
  }

  ghost predicate Distinct(certs: seq<Certificate>) {
    forall j, k :: 0 <= j < k < |certs| ==> certs[j].uid != certs[k].uid && certs[j].hash != certs[k].hash
  }

  ghost predicate RowOk(t: Tables, row: TxRow) {
    && row.certificate < |t.certs|
    && (row.status.TxPending? || row.status.TxSubmitted? || row.status.TxConfirmed?)
    && (row.txHash.None? <==> row.status.TxPending?)
    && (row.txType.StoreHash? ==> row.hashStored == Some(t.certs[row.certificate].hash))
  }

  ghost predicate RowsOk(t: Tables) {
    && (forall i :: 0 <= i < |t.txs| ==> RowOk(t, t.txs[i]))
    && (forall i, j :: 0 <= i < j < |t.txs| ==>
          !(Matches(StoreOf(t.txs[i].certificate), t.txs[i]) && Matches(StoreOf(t.txs[i].certificate), t.txs[j])))
    && (forall i, j :: 0 <= i < j < |t.txs| ==> t.txs[i].txHash.None? || t.txs[i].txHash != t.txs[j].txHash)
  }

  /** The status of the store transaction of a certificate. */
  function StoreStatus(txs: seq<TxRow>, k: nat): Option<TransactionStatus> {
    match Newest(txs, StoreOf(k))
    case None => None
    case Some(i) => Some(txs[i].status)
  }

  /** How far a certificate and its store transaction have come, and what the chain then says. */
  ghost predicate CertOk(cert: Certificate, store: Option<TransactionStatus>, c: R.Chain) {
    && store.Some?
    && match cert.status
       case Pending => store.value.TxPending?
       case Submitted => store.value.TxSubmitted?
       case Confirmed => cert.isActive && store.value.TxConfirmed? && OnChain(c, cert)
       case Revoked => !cert.isActive && RevokedThere(c, cert)
       case Failed => false
  }

  ghost predicate CertsOk(t: Tables, c: R.Chain) {
    forall k :: 0 <= k < |t.certs| ==> CertOk(t.certs[k], StoreStatus(t.txs, k), c)
  }

  /** The number of log rows that carry the id of one QR code. */
  ghost function ScansOf(logs: seq<LogRow>, q: nat): nat {
    if logs == [] then 0
    else ScansOf(logs[..|logs| - 1], q) + if logs[|logs| - 1].qr == Some(q) then 1 else 0
  }

  ghost predicate QrOk(t: Tables, c: R.Chain, k: nat) {
    && k < |t.certs|
    && (t.certs[k].status.Confirmed? || t.certs[k].status.Revoked?)
    && StoreStatus(t.txs, k) == Some(TxConfirmed)
    && OnChain(c, t.certs[k])
  }

  ghost predicate QrsOk(t: Tables, c: R.Chain) {
    forall q :: 0 <= q < |t.qrs| ==> QrOk(t, c, t.qrs[q].certificate)
  }

  ghost predicate OneActive(qrs: seq<Qr>) {
    forall p, q :: 0 <= p < q < |qrs| ==>
      !(qrs[p].isActive && qrs[q].isActive && qrs[p].certificate == qrs[q].certificate)
  }

  ghost predicate LogsOk(t: Tables) {
    && (forall i :: 0 <= i < |t.logs| ==>
          LogAccepts(t.logs[i]) && (t.logs[i].qr.Some? ==> t.logs[i].qr.value < |t.qrs|))
    && (forall q :: 0 <= q < |t.qrs| ==> t.qrs[q].scans == ScansOf(t.logs, q))
  }

  ghost predicate Inv(s: System) {
    && R.Consistent(s.chain)
    && IssuersOk(s.db)
    && Distinct(s.db.certs)
    && Allocated(s.db.certs)
    && RowsOk(s.db)
    && CertsOk(s.db, s.chain)
    && QrsOk(s.db, s.chain)
    && OneActive(s.db.qrs)
    && LogsOk(s.db)
  }
}
