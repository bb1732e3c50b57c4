// What the two confirming calls and the others can do to the tables, case by case: the facts about
// single calls from which the results about runs are put together.
module Shapes {
  import opened Basics
  import opened HashCodec
  import opened ChainReader
  import opened Tables
  import opened Verification
  import opened Protocol
  import R = Registry
  import I = Issuance
  import V = Revocation
  import Q = QrCodes
  import U = Universities

  function PolledRow(row: TxData, txHash: string): TxData {
    row.(status := TxSubmitted, txHash := Some(txHash))
  }

  /** Everything a poll or a failed attempt may have touched is overwritten. */
  function MinedRow(row: TxData, txHash: string, receipt: Receipt, at: nat): TxData {
    row.(status := TxConfirmed, txHash := Some(txHash), blockNumber := Some(receipt.blockNumber),
         blockHash := Some(receipt.blockHash), gasUsed := Some(receipt.gasUsed),
         gasPrice := Some(receipt.gasPrice), fee := Some(receipt.gasUsed * receipt.gasPrice), confirmedAt := Some(at))
  }

  lemma WritePolled(txs: seq<TxRow>, i: nat, txHash: string)
    requires i < |txs|
    ensures Write(txs, Some(i), TxSubmitted, [TxHashIs(txHash)]) ==
            if TxAccepts(txs, i, PolledRow(txs[i], txHash)) then Some(txs[i := PolledRow(txs[i], txHash)]) else None
  {
    AmendOne(txs[i], TxSubmitted, txHash);
  }

  lemma WriteMined(txs: seq<TxRow>, i: nat, txHash: string, receipt: Receipt, at: nat)
    requires i < |txs|
    ensures Write(txs, Some(i), TxConfirmed, MinedData(txHash, receipt, at)) ==
            if TxAccepts(txs, i, MinedRow(txs[i], txHash, receipt, at)) then Some(txs[i := MinedRow(txs[i], txHash,
                                                            receipt, at)])
            else None
  {
    AmendMined(txs[i], TxConfirmed, txHash, receipt, at);
  }

  /** The newest row that matches `q`, if there is one, has been polled. */
  ghost predicate Polls(txs: seq<TxRow>, txs': seq<TxRow>, q: Query, txHash: string) {
    match Newest(txs, q)
    case None => txs' == txs
    case Some(i) =>
      TxAccepts(txs, i, PolledRow(txs[i], txHash)) && txs' == txs[i := PolledRow(txs[i], txHash)]
  }

  /** The newest row that matches `q`, if there is one, has been settled. */
  ghost predicate Settles(txs: seq<TxRow>, txs': seq<TxRow>, q: Query, txHash: string, receipt: Receipt, at: nat) {
    match Newest(txs, q)
    case None => txs' == txs
    case Some(i) =>
      && TxAccepts(txs, i, MinedRow(txs[i], txHash, receipt, at))
      && txs' == txs[i := MinedRow(txs[i], txHash, receipt, at)]
  }

  // ----- confirm_blockchain_storage -----

  ghost predicate WithStatus(t: Tables, t': Tables, id: nat, status: BlockchainStatus) {
    && id < |t.certs| && I.Confirmable(t.certs[id]) && (status.Submitted? || status.Confirmed?)
    && t'.certs == t.certs[id := t.certs[id].(status := status)]
    && t' == t.(certs := t'.certs, txs := t'.txs)
  }

  /** Checks B and C of the cross-validation. */
  ghost predicate Checked(t: Tables, id: nat, rec: ChainRecord) {
    && id < |t.certs| && Lower(rec.hash) == Lower(t.certs[id].hash)
    && var wallet := I.WalletOf(t.unis, t.certs[id].university);
       wallet.Some? ==> Lower(rec.issuer) == Lower(wallet.value)
  }

  ghost predicate ConfirmCases(t: Tables, t': Tables, reply: Reply<I.ConfirmStatus>, id: nat, txHash: string,
                               receipt: Rpc<Option<Receipt>>, record: Rpc<Option<ChainRecord>>) {
    match reply
    case Raise(_) => t' == t
    case Ok(StillSubmitted) => WithStatus(t, t', id, Submitted) && Polls(t.txs, t'.txs, StoreOf(id), txHash)
    case Ok(NowConfirmed) =>
      && receipt.Answer? && receipt.value.Some? && record.Answer? && record.value.Some?
      && WithStatus(t, t', id, Confirmed) && Checked(t, id, record.value.value)
      && Settles(t.txs, t'.txs, StoreOf(id), txHash, receipt.value.value, record.value.value.issuedAt)
  }

  lemma UnminedCases(t: Tables, id: nat, txHash: string, receipt: Rpc<Option<Receipt>>,
                     record: Rpc<Option<ChainRecord>>)
    requires id < |t.certs| && I.Confirmable(t.certs[id])
    ensures var (t', reply) := I.ConfirmUnmined(t, id, txHash);
            ConfirmCases(t, t', reply, id, txHash, receipt, record)
  {
    var slot := Newest(t.txs, StoreOf(id));
    if slot.Some? {
      WritePolled(t.txs, slot.value, txHash);
    }
  }

  lemma MinedCases(t: Tables, id: nat, txHash: string, receipt: Receipt, record: Rpc<Option<ChainRecord>>)
    requires id < |t.certs| && I.Confirmable(t.certs[id])
    ensures var (t', reply) := I.ConfirmMined(t, id, txHash, receipt, record);
            ConfirmCases(t, t', reply, id, txHash, Answer(Some(receipt)), record)
  {
    var slot := Newest(t.txs, StoreOf(id));
    if slot.Some? && record.Answer? && record.value.Some? {
      WriteMined(t.txs, slot.value, txHash, receipt, record.value.value.issuedAt);
    }
  }

  lemma ConfirmDispatch(t: Tables, user: Staff, id: nat, txHash: string,
                        receipt: Rpc<Option<Receipt>>, record: Rpc<Option<ChainRecord>>)
    ensures
      var call := I.Confirm(t, user, id, txHash, receipt, record);
      || (call.0 == t && call.1.Raise?)
      || (id < |t.certs| && I.Confirmable(t.certs[id]) && receipt == Answer(None)
          && call == I.ConfirmUnmined(t, id, txHash))
      || (id < |t.certs| && I.Confirmable(t.certs[id]) && receipt.Answer? && receipt.value.Some?
          && call == I.ConfirmMined(t, id, txHash, receipt.value.value, record))
  {
  }

  /** A confirmation that raises commits nothing; the others are a poll or a settlement. */
  lemma ConfirmShape(t: Tables, user: Staff, id: nat, txHash: string,
                     receipt: Rpc<Option<Receipt>>, record: Rpc<Option<ChainRecord>>)
    ensures var (t', reply) := I.Confirm(t, user, id, txHash, receipt, record);
            ConfirmCases(t, t', reply, id, txHash, receipt, record)
  {
    ConfirmDispatch(t, user, id, txHash, receipt, record);
    if id < |t.certs| && I.Confirmable(t.certs[id]) {
      UnminedCases(t, id, txHash, receipt, record);
      if receipt.Answer? && receipt.value.Some? {
        MinedCases(t, id, txHash, receipt.value.value, record);
      }
    }
  }

  /** When a confirmation goes through. */
  ghost predicate Confirms(t: Tables, user: Staff, id: nat, txHash: string,
                           receipt: Rpc<Option<Receipt>>, record: Rpc<Option<ChainRecord>>) {
    && id < |t.certs| && t.certs[id].university == user.university && I.Confirmable(t.certs[id])
    && receipt.Answer? && receipt.value.Some? && receipt.value.value.status != 0
    && record.Answer? && record.value.Some? && Checked(t, id, record.value.value)
    && match Newest(t.txs, StoreOf(id))
       case None => true
       case Some(i) =>
         TxAccepts(t.txs, i, MinedRow(t.txs[i], txHash, receipt.value.value, record.value.value.issuedAt))
  }

  lemma ConfirmSucceeds(t: Tables, user: Staff, id: nat, txHash: string,
                        receipt: Rpc<Option<Receipt>>, record: Rpc<Option<ChainRecord>>)
    ensures I.Confirm(t, user, id, txHash, receipt, record).1 == Ok(I.NowConfirmed) <==>
            Confirms(t, user, id, txHash, receipt, record)
  {
    ConfirmDispatch(t, user, id, txHash, receipt, record);
    if id < |t.certs| && receipt.Answer? && receipt.value.Some? && record.Answer? && record.value.Some? {
      var slot := Newest(t.txs, StoreOf(id));
      if slot.Some? {
        WriteMined(t.txs, slot.value, txHash, receipt.value.value, record.value.value.issuedAt);
      }
    }
  }

  // ----- confirm_revocation -----

  /** The time a settled revocation is stamped with. */
  function RevokedTime(rec: ChainRecord, now: nat): nat {
    if rec.revokedAt.Some? then rec.revokedAt.value else now
  }

  ghost predicate RevokeCases(t: Tables, t': Tables, reply: Reply<V.RevokeStatus>, user: Staff, id: nat, txHash: string,
                              receipt: Rpc<Option<Receipt>>, record: Rpc<Option<ChainRecord>>, now: nat) {
    match reply
    case Raise(_) => t' == t
    case Ok(RevokeSubmitted) =>
      id < |t.certs| && t' == t.(txs := t'.txs) && Polls(t.txs, t'.txs, OpenRevokeOf(id), txHash)
    case Ok(NowRevoked) =>
      && receipt.Answer? && receipt.value.Some? && record.Answer? && record.value.Some?
      && record.value.value.status == RevokedOnChain
      && id < |t.certs| && t.certs[id].isActive
      && t'.certs == t.certs[id := RevokedCert(t.certs[id], V.ReasonOrDefault(Note(t, id)), user.id, now)]
      && t' == t.(certs := t'.certs, txs := t'.txs)
      && Settles(t.txs, t'.txs, OpenRevokeOf(id), txHash, receipt.value.value, RevokedTime(record.value.value, now))
  }

  /** The note on the open revoke transaction of certificate `k`. */
  function Note(t: Tables, k: nat): Option<string> {
    V.NoteOf(t.txs, Newest(t.txs, OpenRevokeOf(k)))
  }

  lemma RevokeUnminedCases(t: Tables, user: Staff, id: nat, txHash: string,
                           receipt: Rpc<Option<Receipt>>, record: Rpc<Option<ChainRecord>>, now: nat)
    requires id < |t.certs|
    ensures var (t', reply) := V.RevokeUnmined(t, id, txHash);
            RevokeCases(t, t', reply, user, id, txHash, receipt, record, now)
  {
    var slot := Newest(t.txs, OpenRevokeOf(id));
    if slot.Some? {
      WritePolled(t.txs, slot.value, txHash);
    }
  }

  lemma RevokeMinedCases(t: Tables, user: Staff, id: nat, txHash: string, receipt: Receipt,
                         record: Rpc<Option<ChainRecord>>, now: nat)
    requires id < |t.certs| && t.certs[id].isActive
    ensures var (t', reply) := V.RevokeMined(t, user, id, txHash, receipt, record, now);
            RevokeCases(t, t', reply, user, id, txHash, Answer(Some(receipt)), record, now)
  {
    var slot := Newest(t.txs, OpenRevokeOf(id));
    if slot.Some? && record.Answer? && record.value.Some? {
      WriteMined(t.txs, slot.value, txHash, receipt, RevokedTime(record.value.value, now));
    }
  }

  /** A revocation that raises commits nothing; the others are a poll or a settlement with the revocation. */
  lemma RevokeShape(t: Tables, user: Staff, id: nat, txHash: string,
                    receipt: Rpc<Option<Receipt>>, record: Rpc<Option<ChainRecord>>, now: nat)
    ensures var (t', reply) := V.ConfirmRevoke(t, user, id, txHash, receipt, record, now);
            RevokeCases(t, t', reply, user, id, txHash, receipt, record, now)
  {
    if id < |t.certs| && t.certs[id].isActive {
      RevokeUnminedCases(t, user, id, txHash, receipt, record, now);
      if receipt.Answer? && receipt.value.Some? {
        RevokeMinedCases(t, user, id, txHash, receipt.value.value, record, now);
      }
    }
  }

  // ----- The other calls -----

  ghost predicate AddsCertificate(t: Tables, t': Tables) {
    && t.certs <= t'.certs && |t'.certs| <= |t.certs| + 1
    && (forall k :: |t.certs| <= k < |t'.certs| ==> t'.certs[k].status.Pending? && t'.certs[k].isActive)
  }

  lemma UploadShape(t: Tables, user: Staff, known: bool, year: nat, digest: Hash)
    returns (row: TxRow)
    ensures row.txType.StoreHash?
    ensures var t' := I.Upload(t, user, known, year, digest).0; t' == t || t'.txs == t.txs + [row]
  {
    var txs := I.Upload(t, user, known, year, digest).0.txs;
    if |txs| > |t.txs| {
      row := txs[|t.txs|];
    } else {
      row := I.NewStoreRow(0, "0x" + seq(40, i => '0'), digest);
    }
  }

  lemma UploadFrame(t: Tables, user: Staff, known: bool, year: nat, digest: Hash)
    ensures var t' := I.Upload(t, user, known, year, digest).0;
            t' == t.(certs := t'.certs, txs := t'.txs) && t.txs <= t'.txs && AddsCertificate(t, t')
  {
  }

  /** An accepted initiation adds one pending row with the reason as its note. */
  lemma InitiateShape(t: Tables, user: Staff, id: nat, reason: string, p: Option<V.Preflight>)
    ensures
      var (t', reply) := V.Initiate(t, user, id, reason, p);
      match reply
      case Raise(_) => t' == t
      case Ok(wallet) =>
        && id < |t.certs| && t.certs[id].isActive && TxChecks(V.NewRevokeRow(id, wallet, reason))
        && t' == t.(txs := t.txs + [V.NewRevokeRow(id, wallet, reason)])
  {
  }

  lemma InitiateFrame(t: Tables, user: Staff, id: nat, reason: string, p: Option<V.Preflight>)
    ensures var t' := V.Initiate(t, user, id, reason, p).0;
            t' == t.(txs := t'.txs) && t.txs <= t'.txs
  {
    InitiateShape(t, user, id, reason, p);
  }

  lemma GenerateFrame(t: Tables, id: nat, token: string)
    ensures var t' := Q.Generate(t, id, token).0; t' == t.(qrs := t'.qrs)
  {
  }

  /** Universities are never removed, keep their short code and never lose a wallet. */
  ghost predicate UnisOnward(unis: seq<University>, unis': seq<University>) {
    && |unis| <= |unis'|
    && forall u :: 0 <= u < |unis| ==>
         unis'[u].shortCode == unis[u].shortCode && (unis[u].wallet.Some? ==> unis'[u].wallet.Some?)
  }

  lemma UniversityFrame(t: Tables, code: string, u: nat, user: Staff, wallet: string)
    ensures var t' := U.Register(t, code).0; t' == t.(unis := t'.unis) && UnisOnward(t.unis, t'.unis)
    ensures var t' := U.VerifyUni(t, u).0; t' == t.(unis := t'.unis) && UnisOnward(t.unis, t'.unis)
    ensures var t' := U.SetWallet(t, user, u, wallet).0; t' == t.(unis := t'.unis) && UnisOnward(t.unis, t'.unis)
  {
  }

  lemma CheckFrame(t: Tables, user: nat, digest: Hash, hint: Option<string>, service: Service)
    ensures var t' := VerifyUpload(t, user, digest, hint, service).0; t' == t.(logs := t'.logs)
  {
  }

  lemma ScanFrame(t: Tables, token: string, now: nat, service: Service)
    ensures var t' := VerifyQr(t, token, now, service).0; t' == t.(logs := t'.logs, qrs := t'.qrs)
  {
  }

  /** Which tables an event may change, and how. */
  ghost predicate Frame(e: Event, t: Tables, t': Tables) {
    match e
    case Mined(_) => t' == t
    case Register(_) => t' == t.(unis := t'.unis) && UnisOnward(t.unis, t'.unis)
    case VerifyUni(_) => t' == t.(unis := t'.unis) && UnisOnward(t.unis, t'.unis)
    case SetWallet(_, _, _) => t' == t.(unis := t'.unis) && UnisOnward(t.unis, t'.unis)
    case Upload(_, _, _, _) =>
      t' == t.(certs := t'.certs, txs := t'.txs) && t.txs <= t'.txs && AddsCertificate(t, t')
    case Confirm(_, _, _, _, _) => t' == t.(certs := t'.certs, txs := t'.txs)
    case ConfirmRevoke(_, _, _, _, _, _) => t' == t.(certs := t'.certs, txs := t'.txs)
    case GenerateQr(_, _) => t' == t.(qrs := t'.qrs)
    case Initiate(_, _, _, _) => t' == t.(txs := t'.txs) && t.txs <= t'.txs
    case CheckFile(_, _, _, _) => t' == t.(logs := t'.logs)
    case Scan(_, _, _) => t' == t.(logs := t'.logs, qrs := t'.qrs)
  }

  lemma StepFrame(s: System, e: Event)
    ensures Frame(e, s.db, DbAfter(s, e))
  {
    var t := s.db;
    match e
    case Register(code) => UniversityFrame(t, code, 0, Staff(0, 0), "");
    case VerifyUni(u) => UniversityFrame(t, "", u, Staff(0, 0), "");
    case SetWallet(user, u, wallet) => UniversityFrame(t, "", u, user, wallet);
    case Upload(user, known, year, digest) => UploadFrame(t, user, known, year, digest);
    case Confirm(user, id, txHash, receipt, io) =>
      ConfirmShape(t, user, id, txHash, receipt, SecondRecord(s, id, io));
    case ConfirmRevoke(user, id, txHash, receipt, io, now) =>
      RevokeShape(t, user, id, txHash, receipt, SecondRecord(s, id, io), now);
    case GenerateQr(id, token) => GenerateFrame(t, id, token);
    case Initiate(user, id, reason, io) => InitiateFrame(t, user, id, reason, PreflightOf(s, user, id, io));
    case CheckFile(verifier, digest, hint, io) =>
      CheckFrame(t, verifier, digest, hint, ServiceOf(s, FindCertificate(t, digest, hint), digest, io));
    case Scan(token, now, io) => ScanFrame(t, token, now, ScanService(s, token, now, io));
    case Mined(_) =>
  }
}
