// Who may do what, which answer each refusal gives, and what each success writes: the calls of the
// issuing side, told over the rows of the tables and the records of the registry.
module Replies {
  import opened Basics
  import opened HashCodec
  import opened ChainReader
  import opened Tables
  import opened UidAllocator
  import opened Protocol
  import opened Shapes
  import opened Invariants
  import opened Agreement
  import opened Outcomes
  import opened Verdicts
  import R = Registry
  import I = Issuance
  import V = Revocation
  import Q = QrCodes
  import U = Universities

  // ----- Rows -----

  ghost predicate IsStoreRow(t: Tables, id: nat, i: nat) {
    i < |t.txs| && t.txs[i].certificate == id && t.txs[i].txType.StoreHash?
  }

  /** In every reachable state each certificate has exactly one STORE_HASH row. */
  lemma OneStoreRow(s: System, id: nat)
    requires Reachable(s) && id < |s.db.certs|
    ensures exists i: nat :: IsStoreRow(s.db, id, i) && forall j: nat :: IsStoreRow(s.db, id, j) ==> j == i
  {
    ReachableOk(s);
    assert CertOk(s.db.certs[id], StoreStatus(s.db.txs, id), s.chain);
    var i := Newest(s.db.txs, StoreOf(id)).value;
    assert IsStoreRow(s.db, id, i);
    forall j: nat | IsStoreRow(s.db, id, j)
      ensures j == i
    {
      StoreSlot(s.db, j, id);
    }
  }

  lemma StoreRowFound(s: System, id: nat, i: nat)
    requires Reachable(s) && id < |s.db.certs| && IsStoreRow(s.db, id, i)
    ensures Newest(s.db.txs, StoreOf(id)) == Some(i)
    ensures s.db.certs[id].university < |s.db.unis| && s.db.unis[s.db.certs[id].university].wallet.Some?
  {
    ReachableOk(s);
    StoreSlot(s.db, i, id);
  }

  ghost predicate IsOpenRevoke(t: Tables, id: nat, i: nat) {
    && i < |t.txs| && t.txs[i].certificate == id && t.txs[i].txType.RevokeHash?
    && (t.txs[i].status.TxPending? || t.txs[i].status.TxSubmitted?)
  }

  /** The latest open REVOKE_HASH row of a certificate, if it has one. */
  ghost predicate OpenSlot(t: Tables, id: nat, slot: Option<nat>) {
    match slot
    case None => forall j: nat :: !IsOpenRevoke(t, id, j)
    case Some(i) => IsOpenRevoke(t, id, i) && forall j: nat :: j > i ==> !IsOpenRevoke(t, id, j)
  }

  lemma OpenSlotFound(t: Tables, id: nat, slot: Option<nat>)
    requires OpenSlot(t, id, slot)
    ensures Newest(t.txs, OpenRevokeOf(id)) == slot
  {
    assert forall j :: 0 <= j < |t.txs| ==> (Matches(OpenRevokeOf(id), t.txs[j]) <==> IsOpenRevoke(t, id, j));
  }

  /** 0x and `n` hexadecimal digits. */
  ghost predicate HexText(s: string, n: nat) {
    && |s| == n + 2 && s[0] == '0' && s[1] == 'x'
    && forall i :: 2 <= i < |s| ==> '0' <= s[i] <= '9' || 'a' <= s[i] <= 'f' || 'A' <= s[i] <= 'F'
  }

  lemma HexTextIs(s: string)
    ensures IsTxHash(s) <==> HexText(s, 64)
    ensures IsWallet(s) <==> HexText(s, 40)
  {
  }

  /** The hash is well formed and no other row has it. */
  ghost predicate HashFree(txs: seq<TxRow>, i: nat, txHash: string) {
    HexText(txHash, 64) && forall j :: 0 <= j < |txs| && j != i ==> txs[j].txHash != Some(txHash)
  }

  /** Row `i` becomes `row`; no other row changes. */
  ghost predicate RowBecomes(txs: seq<TxRow>, txs': seq<TxRow>, i: nat, row: TxData) {
    && i < |txs| == |txs'| && txs'[i] == row
    && forall j :: 0 <= j < |txs| && j != i ==> txs'[j] == txs[j]
  }

  lemma HashFits(txs: seq<TxRow>, i: nat, status: TransactionStatus, txHash: string)
    requires i < |txs| && (status.TxSubmitted? || status.TxFailed?)
    ensures Write(txs, Some(i), status, [TxHashIs(txHash)]).Some? <==> HashFree(txs, i, txHash)
  {
    AmendOne(txs[i], status, txHash);
    HexTextIs(txHash);
  }

  // ----- confirm_blockchain_storage -----

  /** Before anything is read: the certificate must exist, be the caller's and be unconfirmed. */
  lemma ConfirmGuards(t: Tables, user: Staff, id: nat, txHash: string,
                      receipt: Rpc<Option<Receipt>>, record: Rpc<Option<ChainRecord>>)
    ensures
      var call := I.Confirm(t, user, id, txHash, receipt, record);
      && (id >= |t.certs| ==> call == (t, Raise(CertificateNotFound)))
      && (id < |t.certs| && t.certs[id].university != user.university ==> call == (t, Raise(OwnershipViolation)))
      && (id < |t.certs| && t.certs[id].university == user.university
          && !t.certs[id].status.Pending? && !t.certs[id].status.Submitted? ==>
            call == (t, Raise(CertificateNotConfirmable)))
  {
  }

  ghost predicate OwnUnconfirmed(t: Tables, user: Staff, id: nat) {
    && id < |t.certs| && t.certs[id].university == user.university
    && (t.certs[id].status.Pending? || t.certs[id].status.Submitted?)
  }

  /** Certificate `id` and its store row `i` are SUBMITTED with the hash, and nothing else changed. */
  ghost predicate SubmittedRows(t: Tables, t': Tables, id: nat, i: nat, txHash: string) {
    && id < |t.certs| && t.certs[id].isActive && i < |t.txs|
    && t'.certs == t.certs[id := t.certs[id].(status := Submitted)]
    && RowBecomes(t.txs, t'.txs, i, t.txs[i].(status := TxSubmitted, txHash := Some(txHash)))
    && t' == t.(certs := t'.certs, txs := t'.txs)
  }

  ghost predicate PollGoes(t: Tables, call: (Tables, Reply<I.ConfirmStatus>), id: nat, i: nat, txHash: string) {
    if HashFree(t.txs, i, txHash) then call.1 == Ok(I.StillSubmitted) && SubmittedRows(t, call.0, id, i, txHash)
    else call == (t, Raise(IntegrityError))
  }

  lemma PollFrom(t: Tables, user: Staff, id: nat, i: nat, txHash: string, record: Rpc<Option<ChainRecord>>)
    requires OwnUnconfirmed(t, user, id) && Newest(t.txs, StoreOf(id)) == Some(i)
    ensures PollGoes(t, I.Confirm(t, user, id, txHash, Answer(None), record), id, i, txHash)
  {
    HashFits(t.txs, i, TxSubmitted, txHash);
    WritePolled(t.txs, i, txHash);
  }

  /**
   * A poll by the owner of an unconfirmed certificate, the transaction not mined yet: it commits SUBMITTED
   * and the hash on both rows and answers SUBMITTED if and only if the hash is well formed and free;
   * otherwise it commits nothing.
   */
  lemma PollOutcome(s: System, user: Staff, id: nat, i: nat, txHash: string, io: Reads)
    requires Reachable(s) && OwnUnconfirmed(s.db, user, id) && IsStoreRow(s.db, id, i)
    ensures PollGoes(s.db, I.Confirm(s.db, user, id, txHash, Answer(None), SecondRecord(s, id, io)), id, i, txHash)
  {
    StoreRowFound(s, id, i);
    PollFrom(s.db, user, id, i, txHash, SecondRecord(s, id, io));
  }

  /** The reads of a confirmation are cut off by an outage. */
  ghost predicate CutOff(receipt: Rpc<Option<Receipt>>, second: Link) {
    receipt.Unreachable? || (IsMined(receipt) && second == Down)
  }

  ghost predicate IsMined(receipt: Rpc<Option<Receipt>>) {
    receipt.Answer? && receipt.value.Some? && receipt.value.value.status != 0
  }

  /** A read ends in a contract error. */
  ghost predicate Faulted(receipt: Rpc<Option<Receipt>>, second: Link) {
    receipt.ContractFault? || (IsMined(receipt) && second == Faulty)
  }

  lemma OutageFrom(t: Tables, user: Staff, id: nat, i: nat, txHash: string,
                   receipt: Rpc<Option<Receipt>>, record: Rpc<Option<ChainRecord>>)
    requires OwnUnconfirmed(t, user, id) && Newest(t.txs, StoreOf(id)) == Some(i)
    requires receipt.Unreachable? || (IsMined(receipt) && record.Unreachable?)
    ensures I.Confirm(t, user, id, txHash, receipt, record) ==
            (t, Raise(if t.certs[id].status.Pending? && !HashFree(t.txs, i, txHash) then IntegrityError
                      else BlockchainUnavailable))
  {
    HashFits(t.txs, i, TxSubmitted, txHash);
  }

  /** An outage at either read commits nothing, whatever it tried to write. */
  lemma ConfirmOutageOutcome(s: System, user: Staff, id: nat, i: nat, txHash: string,
                             receipt: Rpc<Option<Receipt>>, io: Reads)
    requires Reachable(s) && OwnUnconfirmed(s.db, user, id) && IsStoreRow(s.db, id, i) && CutOff(receipt, io.second)
    ensures I.Confirm(s.db, user, id, txHash, receipt, SecondRecord(s, id, io)) ==
            (s.db, Raise(if s.db.certs[id].status.Pending? && !HashFree(s.db.txs, i, txHash) then IntegrityError
                         else BlockchainUnavailable))
  {
    StoreRowFound(s, id, i);
    OutageFrom(s.db, user, id, i, txHash, receipt, SecondRecord(s, id, io));
  }

  /** A contract error at either read escapes as it is. */
  lemma ConfirmFaultOutcome(s: System, user: Staff, id: nat, txHash: string, receipt: Rpc<Option<Receipt>>, io: Reads)
    requires OwnUnconfirmed(s.db, user, id) && Faulted(receipt, io.second)
    ensures I.Confirm(s.db, user, id, txHash, receipt, SecondRecord(s, id, io)) ==
            (s.db, Raise(BlockchainContractError))
  {
  }

  /** What a reverted receipt tries to write on the store row fits the table. */
  ghost predicate RevertFits(txs: seq<TxRow>, i: nat, txHash: string, receipt: Receipt) {
    && HashFree(txs, i, txHash) && 0 < receipt.blockNumber < 0x8000_0000_0000_0000
    && (i < |txs| && txs[i].txType.StoreHash? ==> |receipt.blockHash| <= 66)
  }

  lemma RevertedWrite(txs: seq<TxRow>, i: nat, txHash: string, receipt: Receipt)
    requires i < |txs| && txs[i].txType.StoreHash?
    ensures Write(txs, Some(i), TxFailed, I.RevertedData(txHash, receipt)).Some? <==>
            RevertFits(txs, i, txHash, receipt)
  {
    var d, r := I.RevertedData(txHash, receipt), txs[i].(status := TxFailed);
    AssignStep(r, d, 0);
    AssignTwo(r, d, 1);
    HexTextIs(txHash);
    assert d[..0] == [] && d[..3] == d;
  }

  lemma RevertedFrom(t: Tables, user: Staff, id: nat, i: nat, txHash: string, receipt: Receipt,
                     record: Rpc<Option<ChainRecord>>)
    requires OwnUnconfirmed(t, user, id) && Newest(t.txs, StoreOf(id)) == Some(i) && receipt.status == 0
    ensures I.Confirm(t, user, id, txHash, Answer(Some(receipt)), record) ==
            (t, Raise(if RevertFits(t.txs, i, txHash, receipt) then TransactionReverted else IntegrityError))
  {
    RevertedWrite(t.txs, i, txHash, receipt);
  }

  /** A reverted transaction is reported and nothing is committed; FAILED is never stored. */
  lemma ConfirmRevertedOutcome(s: System, user: Staff, id: nat, i: nat, txHash: string, receipt: Receipt, io: Reads)
    requires Reachable(s) && OwnUnconfirmed(s.db, user, id) && IsStoreRow(s.db, id, i) && receipt.status == 0
    ensures I.Confirm(s.db, user, id, txHash, Answer(Some(receipt)), SecondRecord(s, id, io)) ==
            (s.db, Raise(if RevertFits(s.db.txs, i, txHash, receipt) then TransactionReverted else IntegrityError))
  {
    StoreRowFound(s, id, i);
    RevertedFrom(s.db, user, id, i, txHash, receipt, SecondRecord(s, id, io));
  }

  /** What is wrong with the registry's record of a certificate, in the order in which it is checked. */
  ghost function Discrepancy(c: R.Chain, cert: Certificate, wallet: string): Option<Error> {
    if cert.uid !in c.records then Some(RecordMissing)
    else if c.records[cert.uid].hash != HashToBytes32(cert.hash) then Some(RecordMismatch)
    else if c.records[cert.uid].issuer != Lower(wallet) then Some(IssuerMismatch)
    else None
  }

  /** The rows of a successful confirmation, given the time `at` of the registry's record. */
  ghost predicate ConfirmedRows(t: Tables, t': Tables, id: nat, i: nat, txHash: string, receipt: Receipt, at: nat) {
    && id < |t.certs| && t.certs[id].isActive && i < |t.txs|
    && t'.certs == t.certs[id := t.certs[id].(status := Confirmed)]
    && RowBecomes(t.txs, t'.txs, i,
         t.txs[i].(status := TxConfirmed, txHash := Some(txHash), blockNumber := Some(receipt.blockNumber),
                   blockHash := Some(receipt.blockHash), gasUsed := Some(receipt.gasUsed),
                   gasPrice := Some(receipt.gasPrice), fee := Some(receipt.gasUsed * receipt.gasPrice),
                   confirmedAt := Some(at)))
    && t' == t.(certs := t'.certs, txs := t'.txs)
  }

  ghost predicate CrossChecked(t: Tables, c: R.Chain, call: (Tables, Reply<I.ConfirmStatus>), id: nat, i: nat,
                               txHash: string, receipt: Receipt, wallet: string)
    requires id < |t.certs|
  {
    match Discrepancy(c, t.certs[id], wallet)
    case Some(problem) => call == (t, Raise(if HashFree(t.txs, i, txHash) then problem else IntegrityError))
    case None =>
      if Recordable(t.txs, i, txHash, receipt) then
        && call.1 == Ok(I.NowConfirmed)
        && t.certs[id].uid in c.records
        && ConfirmedRows(t, call.0, id, i, txHash, receipt, c.records[t.certs[id].uid].issuedAt)
      else call == (t, Raise(IntegrityError))
  }

  lemma DiscrepancyFrom(c: R.Chain, cert: Certificate, mask: seq<bool>, wallet: string)
    ensures
      var read := GetRecord(c, cert.uid, mask);
      && (read.None? <==> Discrepancy(c, cert, wallet) == Some(RecordMissing))
      && (read.Some? ==>
            && (Lower(read.value.hash) != Lower(cert.hash) <==> Discrepancy(c, cert, wallet) == Some(RecordMismatch))
            && (Lower(read.value.hash) == Lower(cert.hash) && Lower(read.value.issuer) != Lower(wallet) <==>
                  Discrepancy(c, cert, wallet) == Some(IssuerMismatch)))
  {
    RecordSays(c, cert, mask, wallet);
    if cert.uid in c.records {
      HashBytesBijection(cert.hash, cert.hash, c.records[cert.uid].hash);
    }
  }

  lemma MismatchFrom(t: Tables, c: R.Chain, user: Staff, id: nat, i: nat, txHash: string, receipt: Receipt,
                     mask: seq<bool>, wallet: string)
    requires OwnUnconfirmed(t, user, id) && Newest(t.txs, StoreOf(id)) == Some(i) && receipt.status != 0
    requires I.WalletOf(t.unis, t.certs[id].university) == Some(wallet)
    requires Discrepancy(c, t.certs[id], wallet).Some?
    ensures I.Confirm(t, user, id, txHash, Answer(Some(receipt)), Answer(GetRecord(c, t.certs[id].uid, mask))) ==
            (t, Raise(if HashFree(t.txs, i, txHash) then Discrepancy(c, t.certs[id], wallet).value else IntegrityError))
  {
    DiscrepancyFrom(c, t.certs[id], mask, wallet);
    HashFits(t.txs, i, TxFailed, txHash);
  }

  lemma MatchFrom(t: Tables, c: R.Chain, user: Staff, id: nat, i: nat, txHash: string, receipt: Receipt,
                  mask: seq<bool>, wallet: string)
    requires OwnUnconfirmed(t, user, id) && Newest(t.txs, StoreOf(id)) == Some(i) && receipt.status != 0
    requires I.WalletOf(t.unis, t.certs[id].university) == Some(wallet)
    requires Discrepancy(c, t.certs[id], wallet).None?
    ensures CrossChecked(t, c, I.Confirm(t, user, id, txHash, Answer(Some(receipt)),
                                         Answer(GetRecord(c, t.certs[id].uid, mask))), id, i, txHash, receipt, wallet)
  {
    var at := c.records[t.certs[id].uid].issuedAt;
    DiscrepancyFrom(c, t.certs[id], mask, wallet);
    WriteMined(t.txs, i, txHash, receipt, at);
    RecordableIs(t.txs, i, txHash, receipt, at);
  }

  /**
   * A mined transaction and an answered second read: the record must exist, hold the digest and name the
   * university's wallet, in this order, and the first thing wrong is the error. If nothing is wrong and the
   * receipt can be recorded, exactly the certificate and its store row change.
   */
  lemma CrossCheckOutcome(s: System, user: Staff, id: nat, i: nat, txHash: string, receipt: Receipt, io: Reads)
    requires Reachable(s) && OwnUnconfirmed(s.db, user, id) && IsStoreRow(s.db, id, i)
    requires receipt.status != 0 && io.second == Up
    ensures s.db.certs[id].university < |s.db.unis| && s.db.unis[s.db.certs[id].university].wallet.Some?
    ensures CrossChecked(s.db, R.Mine(s.chain, io.between),
                         I.Confirm(s.db, user, id, txHash, Answer(Some(receipt)), SecondRecord(s, id, io)),
                         id, i, txHash, receipt, s.db.unis[s.db.certs[id].university].wallet.value)
  {
    StoreRowFound(s, id, i);
    var c, wallet := R.Mine(s.chain, io.between), s.db.unis[s.db.certs[id].university].wallet.value;
    if Discrepancy(c, s.db.certs[id], wallet).Some? {
      MismatchFrom(s.db, c, user, id, i, txHash, receipt, io.mask, wallet);
    } else {
      MatchFrom(s.db, c, user, id, i, txHash, receipt, io.mask, wallet);
    }
  }

  // ----- confirm_revocation -----

  /** Before anything is read: the certificate must exist, be the caller's and be active. */
  lemma RevokeGuards(t: Tables, user: Staff, id: nat, txHash: string,
                     receipt: Rpc<Option<Receipt>>, record: Rpc<Option<ChainRecord>>, now: nat)
    ensures
      var call := V.ConfirmRevoke(t, user, id, txHash, receipt, record, now);
      && (id >= |t.certs| ==> call == (t, Raise(CertificateNotFound)))
      && (id < |t.certs| && t.certs[id].university != user.university ==> call == (t, Raise(OwnershipViolation)))
      && (id < |t.certs| && t.certs[id].university == user.university && !t.certs[id].isActive ==>
            call == (t, Raise(CertificateAlreadyRevoked)))
  {
  }

  ghost predicate OwnActive(t: Tables, user: Staff, id: nat) {
    id < |t.certs| && t.certs[id].university == user.university && t.certs[id].isActive
  }

  /** The hash can be written on the open row, if there is one. */
  ghost predicate SlotTakes(t: Tables, slot: Option<nat>, txHash: string) {
    slot.Some? ==> HashFree(t.txs, slot.value, txHash)
  }

  ghost predicate RevokePollGoes(t: Tables, call: (Tables, Reply<V.RevokeStatus>), slot: Option<nat>, txHash: string) {
    if !SlotTakes(t, slot, txHash) then call == (t, Raise(IntegrityError))
    else
      && call.1 == Ok(V.RevokeSubmitted) && call.0 == t.(txs := call.0.txs)
      && match slot
         case None => call.0.txs == t.txs
         case Some(i) =>
           && i < |t.txs|
           && RowBecomes(t.txs, call.0.txs, i, t.txs[i].(status := TxSubmitted, txHash := Some(txHash)))
  }

  /** A poll of a revocation changes the open row alone; without one it changes nothing. */
  lemma RevokePollOutcome(t: Tables, user: Staff, id: nat, slot: Option<nat>, txHash: string,
                          record: Rpc<Option<ChainRecord>>, now: nat)
    requires OwnActive(t, user, id) && OpenSlot(t, id, slot)
    ensures RevokePollGoes(t, V.ConfirmRevoke(t, user, id, txHash, Answer(None), record, now), slot, txHash)
  {
    OpenSlotFound(t, id, slot);
    if slot.Some? {
      HashFits(t.txs, slot.value, TxSubmitted, txHash);
      WritePolled(t.txs, slot.value, txHash);
    }
  }

  /** An outage at either read, or a contract error, commits nothing. */
  lemma RevokeOutageOutcome(s: System, user: Staff, id: nat, slot: Option<nat>, txHash: string,
                            receipt: Rpc<Option<Receipt>>, io: Reads, now: nat)
    requires OwnActive(s.db, user, id) && OpenSlot(s.db, id, slot)
    ensures
      var call := V.ConfirmRevoke(s.db, user, id, txHash, receipt, SecondRecord(s, id, io), now);
      && (CutOff(receipt, io.second) ==>
            call == (s.db, Raise(if SlotTakes(s.db, slot, txHash) then BlockchainUnavailable else IntegrityError)))
      && (Faulted(receipt, io.second) ==> call == (s.db, Raise(BlockchainContractError)))
  {
    OpenSlotFound(s.db, id, slot);
    if slot.Some? {
      HashFits(s.db.txs, slot.value, TxSubmitted, txHash);
    }
  }

  /** A reverted revocation is reported and nothing is committed. */
  lemma RevokeRevertedOutcome(t: Tables, user: Staff, id: nat, slot: Option<nat>, txHash: string, receipt: Receipt,
                              record: Rpc<Option<ChainRecord>>, now: nat)
    requires OwnActive(t, user, id) && OpenSlot(t, id, slot) && receipt.status == 0
    ensures V.ConfirmRevoke(t, user, id, txHash, Answer(Some(receipt)), record, now) ==
            (t, Raise(if slot.Some? && !RevertFits(t.txs, slot.value, txHash, receipt) then IntegrityError
                      else TransactionReverted))
  {
    OpenSlotFound(t, id, slot);
    if slot.Some? {
      var d, r := V.RevertedRevoke(txHash, receipt), t.txs[slot.value].(status := TxFailed);
      AssignTwo(r, d, 0);
      HexTextIs(txHash);
      assert d[..0] == [] && d[..2] == d;
    }
  }

  /**
   * A mined revocation and an answered second read: the record must exist and say revoked; then it goes
   * through if the receipt can be recorded on the open row, if there is one.
   */
  lemma RevokeCheckOutcome(s: System, user: Staff, id: nat, slot: Option<nat>, txHash: string, receipt: Receipt,
                           io: Reads, now: nat)
    requires OwnActive(s.db, user, id) && OpenSlot(s.db, id, slot) && receipt.status != 0 && io.second == Up
    ensures
      var c, uid := R.Mine(s.chain, io.between), s.db.certs[id].uid;
      var call := V.ConfirmRevoke(s.db, user, id, txHash, Answer(Some(receipt)), SecondRecord(s, id, io), now);
      && (uid !in c.records ==> call == (s.db, Raise(RecordMissing)))
      && (uid in c.records && !c.records[uid].revoked ==> call == (s.db, Raise(NotRevokedOnChain)))
      && (uid in c.records && c.records[uid].revoked ==>
            if slot.Some? && !Recordable(s.db.txs, slot.value, txHash, receipt) then
              call == (s.db, Raise(IntegrityError))
            else call.1 == Ok(V.NowRevoked))
  {
    var c, cert := R.Mine(s.chain, io.between), s.db.certs[id];
    OpenSlotFound(s.db, id, slot);
    RecordSays(c, cert, io.mask, "");
    if cert.uid in c.records && slot.Some? {
      var at := RevokedTime(GetRecord(c, cert.uid, io.mask).value, now);
      WriteMined(s.db.txs, slot.value, txHash, receipt, at);
      RecordableIs(s.db.txs, slot.value, txHash, receipt, at);
    }
  }

  // ----- initiate_revocation -----

  /** The caller's side: an active, CONFIRMED certificate of the caller's university, which has a wallet. */
  ghost predicate MayInitiate(t: Tables, user: Staff, id: nat) {
    && id < |t.certs| && t.certs[id].university == user.university && t.certs[id].isActive
    && t.certs[id].status.Confirmed? && user.university < |t.unis| && t.unis[user.university].wallet.Some?
  }

  /** The registry's side: no objection in what the pre-flight reads got to see. */
  ghost predicate PreflightPasses(s: System, id: nat, io: Reads, wallet: string)
    requires id < |s.db.certs|
  {
    var c, uid := R.Mine(s.chain, io.between), s.db.certs[id].uid;
    || !io.service || io.first == Down
    || (io.first == Up && Lower(wallet) in s.chain.issuers
        && (io.second == Down
            || (io.second == Up && uid in c.records && !c.records[uid].revoked
                && c.records[uid].issuer == Lower(wallet))))
  }

  /** One pending REVOKE_HASH row more, from the wallet, with the reason as its note and nothing else filled in. */
  ghost predicate InitiatedRows(t: Tables, t': Tables, id: nat, wallet: string, reason: string) {
    && t' == t.(txs := t'.txs) && |t'.txs| == |t.txs| + 1 && t'.txs[..|t.txs|] == t.txs
    && var row := t'.txs[|t.txs|];
       row == TxData(id, RevokeHash, wallet, None, TxPending, None, None, None, None, None, None, None, Some(reason))
  }

  ghost predicate InitiationGoes(s: System, call: (Tables, Reply<string>), user: Staff, id: nat, reason: string,
                                 io: Reads) {
    if MayInitiate(s.db, user, id) && PreflightPasses(s, id, io, s.db.unis[user.university].wallet.value) then
      && call.1 == Ok(s.db.unis[user.university].wallet.value)
      && InitiatedRows(s.db, call.0, id, s.db.unis[user.university].wallet.value, reason)
    else call.0 == s.db && call.1.Raise?
  }

  /**
   * An initiation is accepted if and only if both sides agree; then it adds one row, and otherwise it
   * changes nothing.
   */
  lemma InitiateOutcome(s: System, user: Staff, id: nat, reason: string, io: Reads)
    ensures InitiationGoes(s, V.Initiate(s.db, user, id, reason, PreflightOf(s, user, id, io)), user, id, reason, io)
  {
    if MayInitiate(s.db, user, id) {
      PreflightFrom(s, user, id, io);
    }
  }

  lemma PreflightFrom(s: System, user: Staff, id: nat, io: Reads)
    requires MayInitiate(s.db, user, id)
    ensures
      var wallet := s.db.unis[user.university].wallet.value;
      V.Objection(wallet, PreflightOf(s, user, id, io)).None? <==> PreflightPasses(s, id, io, wallet)
  {
    RecordSays(R.Mine(s.chain, io.between), s.db.certs[id], io.mask, s.db.unis[user.university].wallet.value);
  }

  /** Which error each refusal of the caller's side gives. */
  lemma InitiateGuards(t: Tables, user: Staff, id: nat, reason: string, p: Option<V.Preflight>)
    ensures
      var call := V.Initiate(t, user, id, reason, p);
      && (id >= |t.certs| ==> call == (t, Raise(CertificateNotFound)))
      && (id < |t.certs| && t.certs[id].university != user.university ==> call == (t, Raise(OwnershipViolation)))
      && (id < |t.certs| && t.certs[id].university == user.university ==>
            && (!t.certs[id].isActive ==> call == (t, Raise(CertificateAlreadyRevoked)))
            && (t.certs[id].isActive && !t.certs[id].status.Confirmed? ==> call == (t, Raise(UnconfirmedCertificate)))
            && (t.certs[id].isActive && t.certs[id].status.Confirmed? ==>
                  && (user.university >= |t.unis| ==> call == (t, Raise(UniversityNotFound)))
                  && (user.university < |t.unis| && t.unis[user.university].wallet.None? ==>
                        call == (t, Raise(MissingWalletAddress)))))
  {
  }

  /** Which error each objection of the registry's side gives. */
  lemma PreflightRefusals(s: System, user: Staff, id: nat, reason: string, io: Reads)
    requires MayInitiate(s.db, user, id) && io.service
    ensures
      var c, uid := R.Mine(s.chain, io.between), s.db.certs[id].uid;
      var wallet := Lower(s.db.unis[user.university].wallet.value);
      var call := V.Initiate(s.db, user, id, reason, PreflightOf(s, user, id, io));
      && (io.first == Faulty ==> call == (s.db, Raise(BlockchainContractError)))
      && (io.first == Up && wallet !in s.chain.issuers ==> call == (s.db, Raise(IssuerNotAuthorized)))
      && (io.first == Up && wallet in s.chain.issuers ==>
            && (io.second == Faulty ==> call == (s.db, Raise(BlockchainContractError)))
            && (io.second == Up ==>
                  && (uid !in c.records ==> call == (s.db, Raise(RecordMissing)))
                  && (uid in c.records && c.records[uid].revoked ==> call == (s.db, Raise(CertificateAlreadyRevoked)))
                  && (uid in c.records && !c.records[uid].revoked && c.records[uid].issuer != wallet ==>
                        call == (s.db, Raise(OwnershipViolation)))))
  {
    RecordSays(R.Mine(s.chain, io.between), s.db.certs[id], io.mask, s.db.unis[user.university].wallet.value);
  }

  // ----- upload_and_hash_certificate -----

  ghost predicate HasDigest(t: Tables, digest: Hash) {
    exists k :: 0 <= k < |t.certs| && t.certs[k].hash == digest
  }

  /** Which error each refusal gives, in the order of the checks. */
  lemma UploadGuards(t: Tables, user: Staff, known: bool, year: nat, digest: Hash)
    ensures
      var call := I.Upload(t, user, known, year, digest);
      if user.university >= |t.unis| || !t.unis[user.university].isVerified then
        call == (t, Raise(UnverifiedUniversity))
      else if t.unis[user.university].wallet.None? then call == (t, Raise(MissingWalletAddress))
      else if !known then call == (t, Raise(UserNotFound))
      else if HasDigest(t, digest) then call == (t, Raise(DuplicateCertificate))
      else call.1.Ok? || call == (t, Raise(IntegrityError))
  {
  }

  /** A success adds one PENDING certificate of the digest and its one pending STORE_HASH row. */
  lemma UploadAdds(t: Tables, user: Staff, known: bool, year: nat, digest: Hash)
    requires I.Upload(t, user, known, year, digest).1.Ok?
    ensures
      var (t', reply) := I.Upload(t, user, known, year, digest);
      && user.university < |t.unis| && t.unis[user.university].isVerified && t.unis[user.university].wallet.Some?
      && known && reply == Ok(|t.certs|) && t' == t.(certs := t'.certs, txs := t'.txs)
      && |t'.certs| == |t.certs| + 1 && t'.certs[..|t.certs|] == t.certs
      && |t'.txs| == |t.txs| + 1 && t'.txs[..|t.txs|] == t.txs
      && t'.certs[|t.certs|] ==
           CertificateRow(t'.certs[|t.certs|].uid, user.university, digest, Pending, true, None, None, None)
      && t'.txs[|t.txs|] ==
           TxData(|t.certs|, StoreHash, t.unis[user.university].wallet.value, Some(digest), TxPending,
                  None, None, None, None, None, None, None, None)
  {
  }

  // ----- generate_qr_for_certificate -----

  /** The certificate must exist and be CONFIRMED. */
  lemma GenerateGuards(t: Tables, id: nat, token: string)
    ensures
      var call := Q.Generate(t, id, token);
      && (id >= |t.certs| ==> call == (t, Raise(CertificateNotFound)))
      && (id < |t.certs| && !t.certs[id].status.Confirmed? ==> call == (t, Raise(UnconfirmedCertificate)))
  {
  }

  ghost predicate GeneratedRows(t: Tables, t': Tables, id: nat, token: string) {
    && t' == t.(qrs := t'.qrs) && |t'.qrs| == |t.qrs| + 1
    && t'.qrs[|t.qrs|] == Qr(id, token, true, 0, None)
    && forall q :: 0 <= q < |t.qrs| ==>
         t'.qrs[q] == if t.qrs[q].certificate == id then t.qrs[q].(isActive := false) else t.qrs[q]
  }

  lemma GenerateAddsFrom(t: Tables, id: nat, token: string)
    requires OneActive(t.qrs) && Q.Generate(t, id, token).1.Ok?
    ensures GeneratedRows(t, Q.Generate(t, id, token).0, id, token)
  {
    RetireClears(t.qrs, id);
    var left := Q.Retire(t.qrs, FindActiveQr(t.qrs, id));
    forall q | 0 <= q < |t.qrs|
      ensures left[q] == if t.qrs[q].certificate == id then t.qrs[q].(isActive := false) else t.qrs[q]
    {
      assert !(left[q].isActive && left[q].certificate == id);
    }
  }

  /** A success retires every earlier code of the certificate and adds one active, unscanned code. */
  lemma GenerateAdds(s: System, id: nat, token: string)
    requires Reachable(s) && Q.Generate(s.db, id, token).1.Ok?
    ensures GeneratedRows(s.db, Q.Generate(s.db, id, token).0, id, token)
  {
    ReachableOk(s);
    GenerateAddsFrom(s.db, id, token);
  }

  // ----- The universities -----

  ghost predicate WalletElsewhere(t: Tables, wallet: string, u: nat) {
    exists v :: 0 <= v < |t.unis| && v != u && t.unis[v].wallet == Some(wallet)
  }

  /** Row `u` becomes `row`; no other university and no other table changes. */
  ghost predicate UniversityBecomes(t: Tables, t': Tables, u: nat, row: UniversityRow) {
    && t' == t.(unis := t'.unis) && u < |t.unis| == |t'.unis| && t'.unis[u] == row
    && forall v :: 0 <= v < |t.unis| && v != u ==> t'.unis[v] == t.unis[v]
  }

  /** Only staff of a verified university set its wallet, to a well-formed address no other university has. */
  lemma SetWalletOutcome(t: Tables, user: Staff, u: nat, wallet: string)
    ensures
      var call := U.SetWallet(t, user, u, wallet);
      if user.university != u then call == (t, Raise(OwnershipViolation))
      else if u >= |t.unis| then call == (t, Raise(UniversityNotFound))
      else if !t.unis[u].isVerified then call == (t, Raise(UnverifiedUniversity))
      else if WalletElsewhere(t, wallet, u) then call == (t, Raise(Conflict))
      else if !HexText(wallet, 40) then call == (t, Raise(IntegrityError))
      else call.1 == Ok(u) && UniversityBecomes(t, call.0, u, t.unis[u].(wallet := Some(wallet)))
  {
    HexTextIs(wallet);
    assert WalletTaken(t.unis, wallet, u) <==> WalletElsewhere(t, wallet, u);
  }

  /** A university is verified once. */
  lemma VerifyOutcome(t: Tables, u: nat)
    ensures
      var call := U.VerifyUni(t, u);
      if u >= |t.unis| then call == (t, Raise(UniversityNotFound))
      else if t.unis[u].isVerified then call == (t, Raise(UniversityAlreadyVerified))
      else call.1 == Ok(u) && UniversityBecomes(t, call.0, u, t.unis[u].(isVerified := true))
  {
  }

  ghost predicate HasCode(t: Tables, code: string) {
    exists u :: 0 <= u < |t.unis| && t.unis[u].shortCode == code
  }

  /**
   * A new university is unverified and has no wallet. Its upper-cased code must be new, at least two
   * characters long, and all blanks past the twentieth, which are cut off; what is kept must be new, too.
   */
  lemma RegisterOutcome(t: Tables, code: string)
    ensures
      var call, upper := U.Register(t, code), Upper(code);
      var kept := if |upper| <= 20 then upper else upper[..20];
      if HasCode(t, upper) then call == (t, Raise(Conflict))
      else if |upper| >= 2 && (forall i :: 20 <= i < |upper| ==> upper[i] == ' ') && !HasCode(t, kept) then
        && call.1 == Ok(|t.unis|) && call.0 == t.(unis := call.0.unis)
        && |call.0.unis| == |t.unis| + 1 && call.0.unis[..|t.unis|] == t.unis
        && call.0.unis[|t.unis|] == UniversityRow(kept, None, false)
      else call == (t, Raise(IntegrityError))
  {
  }
}
