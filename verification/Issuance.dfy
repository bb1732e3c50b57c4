// Two-phase issuance: backend/services/certificate_issuance_service.py.
// `Upload` and `Confirm` say what a call leaves behind; the methods do it step by step, including
// the writes that a later raise undoes.
module Issuance {
  import opened Basics
  import opened HashCodec
  import opened ChainReader
  import opened Tables
  import opened UidAllocator
  import opened Database

  datatype ConfirmStatus = StillSubmitted | NowConfirmed

  function NewCertificate(uid: string, university: nat, digest: Hash): CertificateRow {
    CertificateRow(uid, university, digest, Pending, true, None, None, None)
  }

  function NewStoreRow(id: nat, wallet: string, digest: Hash): TxData {
    TxData(id, StoreHash, wallet, Some(digest), TxPending, None, None, None, None, None, None, None, None)
  }

  /** upload_and_hash_certificate; Ok carries the id of the new certificate. */
  function Upload(t: Tables, user: Staff, studentKnown: bool, year: nat, digest: Hash): (r: (Tables, Reply<nat>)) {
    if user.university >= |t.unis| || !t.unis[user.university].isVerified then (t, Raise(UnverifiedUniversity))
    else if t.unis[user.university].wallet.None? then (t, Raise(MissingWalletAddress))
    else if !studentKnown then (t, Raise(UserNotFound))
    else
      var uni := t.unis[user.university];
      var uid := FormatUid(uni.shortCode, year, NextSequence(t.certs, uni.shortCode, year));
      if FindHash(t.certs, digest).Some? then (t, Raise(DuplicateCertificate))
      else if !IsUid(uid) || FindUid(t.certs, uid).Some? then (t, Raise(IntegrityError))
      else
        (t.(certs := t.certs + [NewCertificate(uid, user.university, digest)],
            txs := t.txs + [NewStoreRow(|t.certs|, uni.wallet.value, digest)]),
         Ok(|t.certs|))
  }

  method UploadAndHashCertificate(db: Session, user: Staff, studentKnown: bool, year: nat, digest: Hash)
    returns (reply: Reply<nat>)
    modifies db
    ensures (db.Now(), reply) == Upload(old(db.Now()), user, studentKnown, year, digest)
  {
    db.Begin();
    if user.university >= |db.unis| || !db.unis[user.university].isVerified {
      return Raise(UnverifiedUniversity);
    }
    var uni := db.unis[user.university];
    if uni.wallet.None? {
      return Raise(MissingWalletAddress);
    }
    if !studentKnown {
      return Raise(UserNotFound);
    }
    var sequence := NextSequence(db.certs, uni.shortCode, year);
    var uid := FormatUid(uni.shortCode, year, sequence);
    var existing := FindHash(db.certs, digest);
    if existing.Some? {
      return Raise(DuplicateCertificate);
    }
    var id := |db.certs|;
    var ok := db.CreateCertificate(NewCertificate(uid, user.university, digest));
    if !ok {
      db.Rollback();
      return Raise(IntegrityError);
    }
    ok := db.CreateTransaction(NewStoreRow(id, uni.wallet.value, digest));
    assert ok;
    return Ok(id);
  }

  /** A call that raises `e` after trying a write commits nothing, but a refused write raises first. */
  function Refuse<T>(t: Tables, slot: Option<nat>, status: TransactionStatus, data: seq<Assignment>, e: Error):
      (Tables, Reply<T>)
    requires slot.Some? ==> slot.value < |t.txs|
  {
    (t, Raise(if Write(t.txs, slot, status, data).None? then IntegrityError else e))
  }

  predicate Confirmable(cert: CertificateRow) {
    cert.status.Pending? || cert.status.Submitted?
  }

  /** What confirm_blockchain_storage makes of an outage at either read. */
  function ConfirmOutage(t: Tables, id: nat, txHash: string): (Tables, Reply<ConfirmStatus>)
    requires id < |t.certs|
  {
    if t.certs[id].status.Pending? then
      Refuse(t, Newest(t.txs, StoreOf(id)), TxSubmitted, [TxHashIs(txHash)], BlockchainUnavailable)
    else (t, Raise(BlockchainUnavailable))
  }

  /** A poll before the transaction is mined. */
  function ConfirmUnmined(t: Tables, id: nat, txHash: string): (Tables, Reply<ConfirmStatus>)
    requires id < |t.certs| && Confirmable(t.certs[id])
  {
    match Write(t.txs, Newest(t.txs, StoreOf(id)), TxSubmitted, [TxHashIs(txHash)])
    case None => (t, Raise(IntegrityError))
    case Some(txs) =>
      (t.(txs := txs, certs := t.certs[id := t.certs[id].(status := Submitted)]), Ok(StillSubmitted))
  }

  /** The wallet to compare the issuer with, if there is a university and it has one. */
  function WalletOf(unis: seq<University>, u: nat): Option<string> {
    if u < |unis| then unis[u].wallet else None
  }

  /** The checks and writes after a successful receipt. */
  function ConfirmMined(t: Tables, id: nat, txHash: string, receipt: Receipt, record: Rpc<Option<ChainRecord>>):
      (Tables, Reply<ConfirmStatus>)
    requires id < |t.certs| && Confirmable(t.certs[id])
  {
    var cert := t.certs[id];
    var wallet := WalletOf(t.unis, cert.university);
    var slot := Newest(t.txs, StoreOf(id));
    match record
    case Unreachable => ConfirmOutage(t, id, txHash)
    case ContractFault => (t, Raise(BlockchainContractError))
    case Answer(None) => Refuse(t, slot, TxFailed, [TxHashIs(txHash)], RecordMissing)
    case Answer(Some(rec)) =>
      if Lower(rec.hash) != Lower(cert.hash) then Refuse(t, slot, TxFailed, [TxHashIs(txHash)], RecordMismatch)
      else if wallet.Some? && Lower(rec.issuer) != Lower(wallet.value) then
        Refuse(t, slot, TxFailed, [TxHashIs(txHash)], IssuerMismatch)
      else
        match Write(t.txs, slot, TxConfirmed, MinedData(txHash, receipt, rec.issuedAt))
        case None => (t, Raise(IntegrityError))
        case Some(txs) => (t.(txs := txs, certs := t.certs[id := cert.(status := Confirmed)]), Ok(NowConfirmed))
  }

  /** confirm_blockchain_storage, up to the commit that precedes QR generation. */
  function Confirm(t: Tables, user: Staff, id: nat, txHash: string,
                   receipt: Rpc<Option<Receipt>>, record: Rpc<Option<ChainRecord>>): (Tables, Reply<ConfirmStatus>)
  {
    if id >= |t.certs| then (t, Raise(CertificateNotFound))
    else if t.certs[id].university != user.university then (t, Raise(OwnershipViolation))
    else if !Confirmable(t.certs[id]) then (t, Raise(CertificateNotConfirmable))
    else
      match receipt
      case Unreachable => ConfirmOutage(t, id, txHash)
      case ContractFault => (t, Raise(BlockchainContractError))
      case Answer(None) => ConfirmUnmined(t, id, txHash)
      case Answer(Some(rc)) =>
        if rc.status == 0 then
          Refuse(t, Newest(t.txs, StoreOf(id)), TxFailed, RevertedData(txHash, rc), TransactionReverted)
        else ConfirmMined(t, id, txHash, rc, record)
  }

  function RevertedData(txHash: string, receipt: Receipt): seq<Assignment> {
    [TxHashIs(txHash), BlockNumberIs(receipt.blockNumber), BlockHashIs(receipt.blockHash)]
  }

  method ConfirmBlockchainStorage(db: Session, user: Staff, id: nat, txHash: string,
                                  receiptAnswer: Rpc<Option<Receipt>>, recordAnswer: Rpc<Option<ChainRecord>>)
    returns (reply: Reply<ConfirmStatus>)
    modifies db
    ensures (db.Now(), reply) == Confirm(old(db.Now()), user, id, txHash, receiptAnswer, recordAnswer)
  {
    db.Begin();
    if id >= |db.certs| {
      return Raise(CertificateNotFound);
    }
    var certificate := db.certs[id];
    if certificate.university != user.university {
      return Raise(OwnershipViolation);
    }
    if !certificate.status.Pending? && !certificate.status.Submitted? {
      return Raise(CertificateNotConfirmable);
    }
    var rows := db.GetByCertificateId(id);
    var storeTx := FirstMatching(db.txs, rows, StoreOf(id));

    if receiptAnswer.Unreachable? {
      reply := ConfirmUnreachable(db, id, txHash, storeTx);
      return;
    }
    if receiptAnswer.ContractFault? {
      return Raise(BlockchainContractError);
    }
    if receiptAnswer.value.None? {
      reply := ConfirmNotMined(db, id, txHash, storeTx);
      return;
    }
    var receipt := receiptAnswer.value.value;
    if receipt.status == 0 {
      reply := ConfirmReverted(db, id, txHash, storeTx, receipt);
      return;
    }
    reply := ConfirmRecord(db, id, txHash, storeTx, receipt, recordAnswer);
  }

  method ConfirmNotMined(db: Session, id: nat, txHash: string, storeTx: Option<nat>)
    returns (reply: Reply<ConfirmStatus>)
    requires id < |db.certs| && Confirmable(db.certs[id])
    requires storeTx == Newest(db.txs, StoreOf(id)) && db.saved == db.Now()
    modifies db
    ensures (db.Now(), reply) == ConfirmUnmined(old(db.Now()), id, txHash)
  {
    if storeTx.Some? {
      var ok := db.UpdateStatus(storeTx.value, TxSubmitted, [TxHashIs(txHash)]);
      if !ok {
        db.Rollback();
        return Raise(IntegrityError);
      }
    }
    db.UpdateBlockchainStatus(id, Submitted);
    return Ok(StillSubmitted);
  }

  /** FAILED is written here and undone by the raise. */
  method ConfirmReverted(db: Session, id: nat, txHash: string, storeTx: Option<nat>, receipt: Receipt)
    returns (reply: Reply<ConfirmStatus>)
    requires id < |db.certs| && Confirmable(db.certs[id])
    requires storeTx == Newest(db.txs, StoreOf(id)) && db.saved == db.Now()
    modifies db
    ensures (db.Now(), reply) ==
            Refuse(old(db.Now()), storeTx, TxFailed, RevertedData(txHash, receipt), TransactionReverted)
  {
    if storeTx.Some? {
      var ok := db.UpdateStatus(storeTx.value, TxFailed, RevertedData(txHash, receipt));
      if !ok {
        db.Rollback();
        return Raise(IntegrityError);
      }
    }
    db.UpdateBlockchainStatus(id, Failed);
    db.Rollback();
    return Raise(TransactionReverted);
  }

  /** Steps 4 and 5: cross-validate the on-chain record, then write CONFIRMED. */
  method ConfirmRecord(db: Session, id: nat, txHash: string, storeTx: Option<nat>, receipt: Receipt,
                       recordAnswer: Rpc<Option<ChainRecord>>)
    returns (reply: Reply<ConfirmStatus>)
    requires id < |db.certs| && Confirmable(db.certs[id])
    requires storeTx == Newest(db.txs, StoreOf(id)) && db.saved == db.Now()
    modifies db
    ensures (db.Now(), reply) == ConfirmMined(old(db.Now()), id, txHash, receipt, recordAnswer)
  {
    var certificate := db.certs[id];
    var wallet := WalletOf(db.unis, certificate.university);
    var ok := true;
    if recordAnswer.Unreachable? {
      reply := ConfirmUnreachable(db, id, txHash, storeTx);
      return;
    }
    if recordAnswer.ContractFault? {
      return Raise(BlockchainContractError);
    }
    var problem: Option<Error> := None;
    if recordAnswer.value.None? {
      problem := Some(RecordMissing);
    } else if Lower(recordAnswer.value.value.hash) != Lower(certificate.hash) {
      problem := Some(RecordMismatch);
    } else if wallet.Some? && Lower(recordAnswer.value.value.issuer) != Lower(wallet.value) {
      problem := Some(IssuerMismatch);
    }
    if problem.Some? {
      if storeTx.Some? {
        ok := db.UpdateStatus(storeTx.value, TxFailed, [TxHashIs(txHash)]);
      }
      db.Rollback();
      return Raise(if ok then problem.value else IntegrityError);
    }

    var record := recordAnswer.value.value;
    if storeTx.Some? {
      ok := db.UpdateStatus(storeTx.value, TxConfirmed, MinedData(txHash, receipt, record.issuedAt));
      if !ok {
        db.Rollback();
        return Raise(IntegrityError);
      }
    }
    db.UpdateBlockchainStatus(id, Confirmed);
    return Ok(NowConfirmed);
  }

  /** The handler of connection errors: it writes SUBMITTED and re-raises, which undoes the write. */
  method ConfirmUnreachable(db: Session, id: nat, txHash: string, storeTx: Option<nat>)
    returns (reply: Reply<ConfirmStatus>)
    requires id < |db.certs| && Confirmable(db.certs[id])
    requires storeTx == Newest(db.txs, StoreOf(id)) && db.saved == db.Now()
    modifies db
    ensures (db.Now(), reply) == ConfirmOutage(old(db.Now()), id, txHash)
  {
    if storeTx.Some? && db.certs[id].status.Pending? {
      var ok := db.UpdateStatus(storeTx.value, TxSubmitted, [TxHashIs(txHash)]);
      if !ok {
        db.Rollback();
        return Raise(IntegrityError);
      }
      db.UpdateBlockchainStatus(id, Submitted);
    }
    db.Rollback();
    return Raise(BlockchainUnavailable);
  }
}
