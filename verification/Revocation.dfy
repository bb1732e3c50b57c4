// Two-phase revocation: backend/services/certificate_revocation_service.py.
module Revocation {
  import opened Basics
  import opened HashCodec
  import opened ChainReader
  import opened Tables
  import opened Database
  import opened Issuance

  const DEFAULT_REASON: string := "Revocation confirmed on blockchain"

  datatype RevokeStatus = RevokeSubmitted | NowRevoked

  /** What the pre-flight reads said; absent when no blockchain service was passed in. */
  datatype Preflight = Preflight(authorized: Rpc<bool>, record: Rpc<Option<ChainRecord>>)

  /** The objection of the pre-flight checks, if any; an outage raises none. */
  function Objection(wallet: string, preflight: Option<Preflight>): Option<Error> {
    match preflight
    case None => None
    case Some(p) =>
      match p.authorized
      case Unreachable => None
      case ContractFault => Some(BlockchainContractError)
      case Answer(false) => Some(IssuerNotAuthorized)
      case Answer(true) =>
        match p.record
        case Unreachable => None
        case ContractFault => Some(BlockchainContractError)
        case Answer(None) => Some(RecordMissing)
        case Answer(Some(rec)) =>
          if rec.status == RevokedOnChain then Some(CertificateAlreadyRevoked)
          else if Lower(rec.issuer) != Lower(wallet) then Some(OwnershipViolation)
          else None
  }

  function NewRevokeRow(id: nat, wallet: string, reason: string): TxData {
    TxData(id, RevokeHash, wallet, None, TxPending, None, None, None, None, None, None, None, Some(reason))
  }

  /** initiate_revocation */
  function Initiate(t: Tables, user: Staff, id: nat, reason: string, preflight: Option<Preflight>):
      (Tables, Reply<string>)
  {
    if id >= |t.certs| then (t, Raise(CertificateNotFound))
    else if t.certs[id].university != user.university then (t, Raise(OwnershipViolation))
    else if !t.certs[id].isActive then (t, Raise(CertificateAlreadyRevoked))
    else if !t.certs[id].status.Confirmed? then (t, Raise(UnconfirmedCertificate))
    else if user.university >= |t.unis| then (t, Raise(UniversityNotFound))
    else
      match t.unis[user.university].wallet
      case None => (t, Raise(MissingWalletAddress))
      case Some(wallet) =>
        match Objection(wallet, preflight)
        case Some(e) => (t, Raise(e))
        case None => (t.(txs := t.txs + [NewRevokeRow(id, wallet, reason)]), Ok(wallet))
  }

  method InitiateRevocation(db: Session, user: Staff, id: nat, reason: string, preflight: Option<Preflight>)
    returns (reply: Reply<string>)
    modifies db
    ensures (db.Now(), reply) == Initiate(old(db.Now()), user, id, reason, preflight)
  {
    db.Begin();
    if id >= |db.certs| {
      return Raise(CertificateNotFound);
    }
    var certificate := db.certs[id];
    if certificate.university != user.university {
      return Raise(OwnershipViolation);
    }
    if !certificate.isActive {
      return Raise(CertificateAlreadyRevoked);
    }
    if !certificate.status.Confirmed? {
      return Raise(UnconfirmedCertificate);
    }
    if user.university >= |db.unis| {
      return Raise(UniversityNotFound);
    }
    var wallet := db.unis[user.university].wallet;
    if wallet.None? {
      return Raise(MissingWalletAddress);
    }
    var objection := Objection(wallet.value, preflight);
    if objection.Some? {
      return Raise(objection.value);
    }
    var ok := db.CreateTransaction(NewRevokeRow(id, wallet.value, reason));
    assert ok;
    return Ok(wallet.value);
  }

  /** The note kept since the initiation; a missing or empty one gives way to the default text. */
  function ReasonOrDefault(reason: Option<string>): string {
    if reason.Some? && reason.value != "" then reason.value else DEFAULT_REASON
  }

  function NoteOf(txs: seq<TxRow>, slot: Option<nat>): Option<string>
    requires slot.Some? ==> slot.value < |txs|
  {
    match slot
    case None => None
    case Some(i) => txs[i].errorMessage
  }

  /** The checks and writes after a successful receipt. */
  function RevokeMined(t: Tables, user: Staff, id: nat, txHash: string, receipt: Receipt,
                       record: Rpc<Option<ChainRecord>>, now: nat): (Tables, Reply<RevokeStatus>)
    requires id < |t.certs|
  {
    var slot := Newest(t.txs, OpenRevokeOf(id));
    match record
    case Unreachable => Refuse(t, slot, TxSubmitted, [TxHashIs(txHash)], BlockchainUnavailable)
    case ContractFault => (t, Raise(BlockchainContractError))
    case Answer(None) => (t, Raise(RecordMissing))
    case Answer(Some(rec)) =>
      if rec.status != RevokedOnChain then (t, Raise(NotRevokedOnChain))
      else
        var at := if rec.revokedAt.Some? then rec.revokedAt.value else now;
        match Write(t.txs, slot, TxConfirmed, MinedData(txHash, receipt, at))
        case None => (t, Raise(IntegrityError))
        case Some(txs) =>
          (t.(txs := txs,
              certs := t.certs[id := RevokedCert(t.certs[id], ReasonOrDefault(NoteOf(t.txs, slot)), user.id, now)]),
           Ok(NowRevoked))
  }

  function RevokeUnmined(t: Tables, id: nat, txHash: string): (Tables, Reply<RevokeStatus>) {
    match Write(t.txs, Newest(t.txs, OpenRevokeOf(id)), TxSubmitted, [TxHashIs(txHash)])
    case None => (t, Raise(IntegrityError))
    case Some(txs) => (t.(txs := txs), Ok(RevokeSubmitted))
  }

  function RevertedRevoke(txHash: string, receipt: Receipt): seq<Assignment> {
    [TxHashIs(txHash), BlockNumberIs(receipt.blockNumber)]
  }

  /** confirm_revocation */
  function ConfirmRevoke(t: Tables, user: Staff, id: nat, txHash: string,
                         receipt: Rpc<Option<Receipt>>, record: Rpc<Option<ChainRecord>>, now: nat):
      (Tables, Reply<RevokeStatus>)
  {
    if id >= |t.certs| then (t, Raise(CertificateNotFound))
    else if t.certs[id].university != user.university then (t, Raise(OwnershipViolation))
    else if !t.certs[id].isActive then (t, Raise(CertificateAlreadyRevoked))
    else
      var slot := Newest(t.txs, OpenRevokeOf(id));
      match receipt
      case Unreachable => Refuse(t, slot, TxSubmitted, [TxHashIs(txHash)], BlockchainUnavailable)
      case ContractFault => (t, Raise(BlockchainContractError))
      case Answer(None) => RevokeUnmined(t, id, txHash)
      case Answer(Some(rc)) =>
        if rc.status == 0 then Refuse(t, slot, TxFailed, RevertedRevoke(txHash, rc), TransactionReverted)
        else RevokeMined(t, user, id, txHash, rc, record, now)
  }

  method ConfirmRevocation(db: Session, user: Staff, id: nat, txHash: string,
                           receiptAnswer: Rpc<Option<Receipt>>, recordAnswer: Rpc<Option<ChainRecord>>, now: nat)
    returns (reply: Reply<RevokeStatus>)
    modifies db
    ensures (db.Now(), reply) == ConfirmRevoke(old(db.Now()), user, id, txHash, receiptAnswer, recordAnswer, now)
  {
    db.Begin();
    if id >= |db.certs| {
      return Raise(CertificateNotFound);
    }
    var certificate := db.certs[id];
    if certificate.university != user.university {
      return Raise(OwnershipViolation);
    }
    if !certificate.isActive {
      return Raise(CertificateAlreadyRevoked);
    }
    var rows := db.GetByCertificateId(id);
    var revokeTx := FirstMatching(db.txs, rows, OpenRevokeOf(id));
    if receiptAnswer.Unreachable? {
      reply := MarkAndRaise(db, revokeTx, TxSubmitted, [TxHashIs(txHash)], BlockchainUnavailable);
      return;
    }
    if receiptAnswer.ContractFault? {
      return Raise(BlockchainContractError);
    }
    if receiptAnswer.value.None? {
      var ok := true;
      if revokeTx.Some? {
        ok := db.UpdateStatus(revokeTx.value, TxSubmitted, [TxHashIs(txHash)]);
      }
      return if ok then Ok(RevokeSubmitted) else Raise(IntegrityError);
    }
    var receipt := receiptAnswer.value.value;
    if receipt.status == 0 {
      reply := MarkAndRaise(db, revokeTx, TxFailed, RevertedRevoke(txHash, receipt), TransactionReverted);
      return;
    }
    reply := FinishRevocation(db, user, id, txHash, revokeTx, receipt, recordAnswer, now);
  }

  /** Writes on the revoke transaction, then raises, which undoes the write. */
  method MarkAndRaise<T>(db: Session, slot: Option<nat>, status: TransactionStatus, data: seq<Assignment>, e: Error)
    returns (reply: Reply<T>)
    requires slot.Some? ==> slot.value < |db.txs|
    requires db.saved == db.Now()
    modifies db
    ensures (db.Now(), reply) == Refuse(old(db.Now()), slot, status, data, e)
  {
    var ok := true;
    if slot.Some? {
      ok := db.UpdateStatus(slot.value, status, data);
    }
    db.Rollback();
    return Raise(if ok then e else IntegrityError);
  }

  method FinishRevocation(db: Session, user: Staff, id: nat, txHash: string, revokeTx: Option<nat>,
                          receipt: Receipt, recordAnswer: Rpc<Option<ChainRecord>>, now: nat)
    returns (reply: Reply<RevokeStatus>)
    requires id < |db.certs|
    requires revokeTx == Newest(db.txs, OpenRevokeOf(id)) && db.saved == db.Now()
    modifies db
    ensures (db.Now(), reply) == RevokeMined(old(db.Now()), user, id, txHash, receipt, recordAnswer, now)
  {
    if recordAnswer.Unreachable? {
      reply := MarkAndRaise(db, revokeTx, TxSubmitted, [TxHashIs(txHash)], BlockchainUnavailable);
      return;
    }
    if recordAnswer.ContractFault? {
      return Raise(BlockchainContractError);
    }
    if recordAnswer.value.None? {
      return Raise(RecordMissing);
    }
    var record := recordAnswer.value.value;
    if record.status != RevokedOnChain {
      return Raise(NotRevokedOnChain);
    }
    var revokedAt := if record.revokedAt.Some? then record.revokedAt.value else now;
    var reason := DEFAULT_REASON;
    if revokeTx.Some? && db.txs[revokeTx.value].errorMessage.Some?
       && db.txs[revokeTx.value].errorMessage.value != "" {
      reason := db.txs[revokeTx.value].errorMessage.value;
    }
    db.Revoke(id, reason, user.id, now);
    if revokeTx.Some? {
      var ok := db.UpdateStatus(revokeTx.value, TxConfirmed, MinedData(txHash, receipt, revokedAt));
      if !ok {
        db.Rollback();
        return Raise(IntegrityError);
      }
    }
    return Ok(NowRevoked);
  }
}
