// Every event keeps the invariant of the two ledgers.
module Invariants {
  import opened Basics
  import opened HashCodec
  import opened ChainReader
  import opened Tables
  import opened UidAllocator
  import opened Verification
  import opened Protocol
  import opened Shapes
  import R = Registry
  import I = Issuance
  import V = Revocation
  import Q = QrCodes
  import U = Universities

  /** Checks made once stay true however the registry moves on. */
  lemma ChainMoves(t: Tables, c: R.Chain, d: R.Chain)
    requires CertsOk(t, c) && QrsOk(t, c) && R.Extends(c, d)
    ensures CertsOk(t, d) && QrsOk(t, d)
  {
    forall k | 0 <= k < |t.certs|
      ensures CertOk(t.certs[k], StoreStatus(t.txs, k), d)
    {
      assert CertOk(t.certs[k], StoreStatus(t.txs, k), c);
    }
    forall q | 0 <= q < |t.qrs|
      ensures QrOk(t, d, t.qrs[q].certificate)
    {
      assert QrOk(t, c, t.qrs[q].certificate);
    }
  }

  // ----- Single-table changes -----

  lemma {:induction false} IssuedFrame(certs: seq<Certificate>, certs': seq<Certificate>, prefix: string)
    requires |certs| == |certs'| && forall k :: 0 <= k < |certs| ==> certs[k].uid == certs'[k].uid
    ensures Issued(certs, prefix) == Issued(certs', prefix)
  {
    if certs == [] {
    } else {
      IssuedFrame(certs[..|certs| - 1], certs'[..|certs| - 1], prefix);
    }
  }

  lemma AllocatedFrame(certs: seq<Certificate>, certs': seq<Certificate>)
    requires |certs| == |certs'| && forall k :: 0 <= k < |certs| ==> certs[k].uid == certs'[k].uid
    requires Allocated(certs)
    ensures Allocated(certs')
  {
    forall code, year: nat | IsCode(code)
      ensures Issued(certs', Prefix(code, year)) == Count(|Issued(certs', Prefix(code, year))|)
    {
      IssuedFrame(certs, certs', Prefix(code, year));
    }
  }

  /** Rewriting one transaction row, with its certificate, type and payload kept. */
  lemma RowReplaced(t: Tables, slot: nat, row: TxData)
    requires RowsOk(t) && slot < |t.txs| && TxAccepts(t.txs, slot, row)
    requires row.certificate == t.txs[slot].certificate && row.txType == t.txs[slot].txType
    requires row.hashStored == t.txs[slot].hashStored
    requires row.txHash.Some? && (row.status.TxSubmitted? || row.status.TxConfirmed?)
    ensures RowsOk(t.(txs := t.txs[slot := row]))
    ensures forall k :: Newest(t.txs[slot := row], StoreOf(k)) == Newest(t.txs, StoreOf(k))
  {
    var txs: seq<TxRow> := t.txs[slot := row];
    forall k
      ensures Newest(txs, StoreOf(k)) == Newest(t.txs, StoreOf(k))
    {
      NewestFrame(t.txs, txs, StoreOf(k));
    }
    assert forall i :: 0 <= i < |txs| ==> RowOk(t, txs[i]);
    forall i, j | 0 <= i < j < |txs|
      ensures !(Matches(StoreOf(txs[i].certificate), txs[i]) && Matches(StoreOf(txs[i].certificate), txs[j]))
      ensures txs[i].txHash.None? || txs[i].txHash != txs[j].txHash
    {
      assert !(Matches(StoreOf(t.txs[i].certificate), t.txs[i]) && Matches(StoreOf(t.txs[i].certificate), t.txs[j]));
    }
  }

  /** Rewriting the mutable columns of one certificate row. */
  lemma CertReplaced(t: Tables, id: nat, cert: Certificate)
    requires id < |t.certs| && cert.uid == t.certs[id].uid && cert.hash == t.certs[id].hash
    requires cert.university == t.certs[id].university
    requires IssuersOk(t) && Distinct(t.certs) && Allocated(t.certs) && RowsOk(t)
    ensures var t' := t.(certs := t.certs[id := cert]);
            IssuersOk(t') && Distinct(t'.certs) && Allocated(t'.certs) && RowsOk(t')
  {
    var t' := t.(certs := t.certs[id := cert]);
    AllocatedFrame(t.certs, t'.certs);
    assert forall k :: 0 <= k < |t'.certs| ==> t'.certs[k].uid == t.certs[k].uid && t'.certs[k].hash == t.certs[k].hash;
    forall i | 0 <= i < |t'.txs|
      ensures RowOk(t', t'.txs[i])
    {
      assert RowOk(t, t.txs[i]);
    }
  }

  lemma StoreSlot(t: Tables, i: nat, k: nat)
    requires RowsOk(t) && k < |t.certs| && i < |t.txs| && Matches(StoreOf(k), t.txs[i])
    ensures Newest(t.txs, StoreOf(k)) == Some(i)
  {
    NewestIs(t.txs, StoreOf(k), i);
  }

  ghost predicate IsAdvance(t: Tables, slot: Option<nat>, row: TxData, id: nat, cert: Certificate) {
    && id < |t.certs| && cert.uid == t.certs[id].uid && cert.hash == t.certs[id].hash
    && cert.university == t.certs[id].university
    && (slot.Some? ==>
          && slot.value < |t.txs| && TxAccepts(t.txs, slot.value, row)
          && t.txs[slot.value].certificate == row.certificate == id
          && row.txType == t.txs[slot.value].txType && row.hashStored == t.txs[slot.value].hashStored
          && row.txHash.Some? && (row.status.TxSubmitted? || row.status.TxConfirmed?))
  }

  function Advanced(t: Tables, slot: Option<nat>, row: TxRow, id: nat, cert: Certificate): Tables
    requires id < |t.certs| && (slot.Some? ==> slot.value < |t.txs|)
  {
    t.(certs := t.certs[id := cert], txs := if slot.Some? then t.txs[slot.value := row] else t.txs)
  }

  lemma AdvancedRows(t: Tables, slot: Option<nat>, row: TxRow, id: nat, cert: Certificate)
    requires IssuersOk(t) && Distinct(t.certs) && Allocated(t.certs) && RowsOk(t)
    requires IsAdvance(t, slot, row, id, cert)
    ensures var t' := Advanced(t, slot, row, id, cert);
            && IssuersOk(t') && Distinct(t'.certs) && Allocated(t'.certs) && RowsOk(t')
            && forall k :: StoreStatus(t'.txs, k) ==
                 if k == id && slot.Some? && row.txType.StoreHash? then Some(row.status) else StoreStatus(t.txs, k)
  {
    var t1 := t.(txs := if slot.Some? then t.txs[slot.value := row] else t.txs);
    if slot.Some? {
      RowReplaced(t, slot.value, row);
      if row.txType.StoreHash? {
        StoreSlot(t, slot.value, id);
      }
    }
    assert RowsOk(t1);
    CertReplaced(t1, id, cert);
  }

  /** The status the store transaction of `id` has after an advance. */
  function StoreAfter(t: Tables, slot: Option<nat>, row: TxRow, id: nat): Option<TransactionStatus> {
    if slot.Some? && row.txType.StoreHash? then Some(row.status) else StoreStatus(t.txs, id)
  }

  lemma AdvancedLinks(t: Tables, t': Tables, c: R.Chain, id: nat, cert: Certificate, store: Option<TransactionStatus>)
    requires CertsOk(t, c) && QrsOk(t, c)
    requires id < |t.certs| && t'.certs == t.certs[id := cert] && t'.qrs == t.qrs
    requires cert.uid == t.certs[id].uid && cert.hash == t.certs[id].hash
    requires forall k :: StoreStatus(t'.txs, k) == if k == id then store else StoreStatus(t.txs, k)
    requires CertOk(cert, store, c)
    requires cert.status.Submitted? ==> I.Confirmable(t.certs[id])
    requires cert.status.Revoked? ==> store == StoreStatus(t.txs, id)
    requires cert.status.Pending? ==> cert == t.certs[id]
    ensures CertsOk(t', c) && QrsOk(t', c)
  {
    forall k | 0 <= k < |t'.certs|
      ensures CertOk(t'.certs[k], StoreStatus(t'.txs, k), c)
    {
      assert CertOk(t.certs[k], StoreStatus(t.txs, k), c);
    }
    forall q | 0 <= q < |t'.qrs|
      ensures QrOk(t', c, t'.qrs[q].certificate)
    {
      assert QrOk(t, c, t.qrs[q].certificate);
    }
  }

  /**
   * A confirmation or revocation step: one row of certificate `id` and the certificate itself move
   * on together. The caller shows that they agree with each other and with the chain.
   */
  lemma Advance(t: Tables, c: R.Chain, slot: Option<nat>, row: TxRow, id: nat, cert: Certificate)
    requires Inv(System(t, c)) && IsAdvance(t, slot, row, id, cert)
    requires CertOk(cert, StoreAfter(t, slot, row, id), c)
    requires cert.status.Submitted? ==> I.Confirmable(t.certs[id])
    requires cert.status.Revoked? ==> StoreAfter(t, slot, row, id) == StoreStatus(t.txs, id)
    requires cert.status.Pending? ==> cert == t.certs[id]
    ensures Inv(System(Advanced(t, slot, row, id, cert), c))
  {
    AdvancedRows(t, slot, row, id, cert);
    AdvancedLinks(t, Advanced(t, slot, row, id, cert), c, id, cert, StoreAfter(t, slot, row, id));
  }

  // ----- The events -----

  /** A record answer is a reading of chain `c`. */
  ghost predicate ReadFrom(c: R.Chain, uid: string, answer: Rpc<Option<ChainRecord>>) {
    answer.Answer? ==> exists mask :: answer.value == GetRecord(c, uid, mask)
  }

  lemma RecordMeansOnChain(c: R.Chain, cert: Certificate, mask: seq<bool>)
    requires GetRecord(c, cert.uid, mask).Some?
    ensures Lower(GetRecord(c, cert.uid, mask).value.hash) == Lower(cert.hash) ==> OnChain(c, cert)
    ensures GetRecord(c, cert.uid, mask).value.status == RevokedOnChain ==> RevokedThere(c, cert)
  {
    LowerHash(GetRecord(c, cert.uid, mask).value.hash);
    LowerHash(cert.hash);
  }

  lemma LowerHash(h: Hash)
    ensures Lower(h) == h
  {
    assert forall i :: 0 <= i < |h| ==> LowerChar(h[i]) == h[i];
  }

  lemma PollKeeps(t: Tables, t': Tables, c: R.Chain, id: nat, txHash: string)
    requires Inv(System(t, c)) && WithStatus(t, t', id, Submitted) && Polls(t.txs, t'.txs, StoreOf(id), txHash)
    ensures Inv(System(t', c))
  {
    var cert, slot := t.certs[id], Newest(t.txs, StoreOf(id));
    assert CertOk(cert, StoreStatus(t.txs, id), c);
    Advance(t, c, slot, PolledRow(t.txs[slot.value], txHash), id, cert.(status := Submitted));
  }

  lemma SettleKeeps(t: Tables, t': Tables, c: R.Chain, id: nat, txHash: string, receipt: Receipt, at: nat)
    requires Inv(System(t, c)) && WithStatus(t, t', id, Confirmed) && OnChain(c, t.certs[id])
    requires Settles(t.txs, t'.txs, StoreOf(id), txHash, receipt, at)
    ensures Inv(System(t', c))
  {
    var cert, slot := t.certs[id], Newest(t.txs, StoreOf(id));
    assert CertOk(cert, StoreStatus(t.txs, id), c);
    Advance(t, c, slot, MinedRow(t.txs[slot.value], txHash, receipt, at), id, cert.(status := Confirmed));
  }

  lemma CheckedIsOnChain(t: Tables, c: R.Chain, id: nat, record: Rpc<Option<ChainRecord>>)
    requires id < |t.certs| && ReadFrom(c, t.certs[id].uid, record)
    requires record.Answer? && record.value.Some? && Checked(t, id, record.value.value)
    ensures OnChain(c, t.certs[id])
  {
    var mask :| record.value == GetRecord(c, t.certs[id].uid, mask);
    RecordMeansOnChain(c, t.certs[id], mask);
  }

  lemma ConfirmCasesKeep(t: Tables, t': Tables, c: R.Chain, reply: Reply<I.ConfirmStatus>, id: nat, txHash: string,
                         receipt: Rpc<Option<Receipt>>, record: Rpc<Option<ChainRecord>>)
    requires Inv(System(t, c)) && ConfirmCases(t, t', reply, id, txHash, receipt, record)
    requires id < |t.certs| ==> ReadFrom(c, t.certs[id].uid, record)
    ensures Inv(System(t', c))
  {
    match reply
    case Raise(_) =>
    case Ok(StillSubmitted) => PollKeeps(t, t', c, id, txHash);
    case Ok(NowConfirmed) =>
      CheckedIsOnChain(t, c, id, record);
      SettleKeeps(t, t', c, id, txHash, receipt.value.value, record.value.value.issuedAt);
  }

  lemma ConfirmKeeps(t: Tables, c: R.Chain, user: Staff, id: nat, txHash: string,
                     receipt: Rpc<Option<Receipt>>, record: Rpc<Option<ChainRecord>>)
    requires Inv(System(t, c))
    requires id < |t.certs| ==> ReadFrom(c, t.certs[id].uid, record)
    ensures Inv(System(I.Confirm(t, user, id, txHash, receipt, record).0, c))
  {
    var (t', reply) := I.Confirm(t, user, id, txHash, receipt, record);
    ConfirmShape(t, user, id, txHash, receipt, record);
    ConfirmCasesKeep(t, t', c, reply, id, txHash, receipt, record);
  }

  lemma RevokePollKeeps(t: Tables, t': Tables, c: R.Chain, id: nat, txHash: string)
    requires Inv(System(t, c)) && id < |t.certs| && t' == t.(txs := t'.txs)
    requires Polls(t.txs, t'.txs, OpenRevokeOf(id), txHash)
    ensures Inv(System(t', c))
  {
    var slot := Newest(t.txs, OpenRevokeOf(id));
    if slot.Some? {
      assert CertOk(t.certs[id], StoreStatus(t.txs, id), c);
      Advance(t, c, slot, PolledRow(t.txs[slot.value], txHash), id, t.certs[id]);
      assert t' == Advanced(t, slot, PolledRow(t.txs[slot.value], txHash), id, t.certs[id]);
    } else {
      assert t' == t;
    }
  }

  lemma RevokeSettleKeeps(t: Tables, t': Tables, c: R.Chain, id: nat, cert: Certificate, txHash: string,
                          receipt: Receipt, at: nat)
    requires Inv(System(t, c)) && id < |t.certs| && RevokedThere(c, t.certs[id])
    requires cert.status.Revoked? && cert.uid == t.certs[id].uid && cert.hash == t.certs[id].hash
    requires cert.university == t.certs[id].university && !cert.isActive
    requires t'.certs == t.certs[id := cert] && t' == t.(certs := t'.certs, txs := t'.txs)
    requires Settles(t.txs, t'.txs, OpenRevokeOf(id), txHash, receipt, at)
    ensures Inv(System(t', c))
  {
    var slot := Newest(t.txs, OpenRevokeOf(id));
    assert CertOk(t.certs[id], StoreStatus(t.txs, id), c);
    var i := if slot.Some? then slot.value else Newest(t.txs, StoreOf(id)).value;
    var row: TxRow := if slot.Some? then MinedRow(t.txs[i], txHash, receipt, at) else t.txs[i];
    Advance(t, c, slot, row, id, cert);
    assert t' == Advanced(t, slot, row, id, cert);
  }

  lemma RevokeCasesKeep(t: Tables, t': Tables, c: R.Chain, reply: Reply<V.RevokeStatus>, user: Staff, id: nat,
                        txHash: string,
                        receipt: Rpc<Option<Receipt>>, record: Rpc<Option<ChainRecord>>, now: nat)
    requires Inv(System(t, c)) && RevokeCases(t, t', reply, user, id, txHash, receipt, record, now)
    requires id < |t.certs| ==> ReadFrom(c, t.certs[id].uid, record)
    ensures Inv(System(t', c))
  {
    match reply
    case Raise(_) =>
    case Ok(RevokeSubmitted) => RevokePollKeeps(t, t', c, id, txHash);
    case Ok(NowRevoked) =>
      var mask :| record.value == GetRecord(c, t.certs[id].uid, mask);
      RecordMeansOnChain(c, t.certs[id], mask);
      RevokeSettleKeeps(t, t', c, id, RevokedCert(t.certs[id], V.ReasonOrDefault(Note(t, id)), user.id, now), txHash,
                        receipt.value.value, RevokedTime(record.value.value, now));
  }

  lemma RevokeKeeps(t: Tables, c: R.Chain, user: Staff, id: nat, txHash: string,
                    receipt: Rpc<Option<Receipt>>, record: Rpc<Option<ChainRecord>>, now: nat)
    requires Inv(System(t, c))
    requires id < |t.certs| ==> ReadFrom(c, t.certs[id].uid, record)
    ensures Inv(System(V.ConfirmRevoke(t, user, id, txHash, receipt, record, now).0, c))
  {
    var (t', reply) := V.ConfirmRevoke(t, user, id, txHash, receipt, record, now);
    RevokeShape(t, user, id, txHash, receipt, record, now);
    RevokeCasesKeep(t, t', c, reply, user, id, txHash, receipt, record, now);
  }

  lemma RowAppended(t: Tables, row: TxRow, certs: seq<Certificate>)
    requires RowsOk(t) && t.certs <= certs
    requires row.txHash.None? && row.status.TxPending? && row.certificate < |certs|
    requires row.txType.StoreHash? ==>
      row.certificate >= |t.certs| && row.hashStored == Some(certs[row.certificate].hash)
    ensures RowsOk(t.(txs := t.txs + [row], certs := certs))
    ensures forall k :: StoreStatus(t.txs + [row], k) ==
              if Matches(StoreOf(k), row) then Some(row.status) else StoreStatus(t.txs, k)
  {
    var txs := t.txs + [row];
    var t' := t.(txs := txs, certs := certs);
    forall i | 0 <= i < |txs|
      ensures RowOk(t', txs[i])
    {
      assert i < |t.txs| ==> RowOk(t, t.txs[i]);
    }
    forall i, j | 0 <= i < j < |txs|
      ensures !(Matches(StoreOf(txs[i].certificate), txs[i]) && Matches(StoreOf(txs[i].certificate), txs[j]))
    {
      assert RowOk(t, t.txs[i]);
    }
    forall k
      ensures StoreStatus(txs, k) == if Matches(StoreOf(k), row) then Some(row.status) else StoreStatus(t.txs, k)
    {
      NewestAppend(t.txs, row, StoreOf(k));
    }
  }

  lemma InitiateKeeps(t: Tables, c: R.Chain, user: Staff, id: nat, reason: string, p: Option<V.Preflight>)
    requires Inv(System(t, c))
    ensures Inv(System(V.Initiate(t, user, id, reason, p).0, c))
  {
    var t' := V.Initiate(t, user, id, reason, p).0;
    AddsRevokeRow(t, t', user, id, reason, p);
    if row: TxRow :| RevokeRowAdded(t, t', row) {
      RevokeRowKeeps(t, t', c, row);
    }
  }

  ghost predicate RevokeRowAdded(t: Tables, t': Tables, row: TxRow) {
    && row.certificate < |t.certs| && row.txType.RevokeHash? && row.txHash.None? && row.status.TxPending?
    && t' == t.(txs := t.txs + [row])
  }

  lemma AddsRevokeRow(t: Tables, t': Tables, user: Staff, id: nat, reason: string, p: Option<V.Preflight>)
    requires t' == V.Initiate(t, user, id, reason, p).0
    ensures t' == t || exists row: TxRow :: RevokeRowAdded(t, t', row)
  {
    if V.Initiate(t, user, id, reason, p).1.Ok? {
      assert RevokeRowAdded(t, t', V.NewRevokeRow(id, t.unis[user.university].wallet.value, reason));
    }
  }

  /** One more pending REVOKE_HASH row keeps the invariant. */
  lemma RevokeRowKeeps(t: Tables, t': Tables, c: R.Chain, row: TxRow)
    requires Inv(System(t, c)) && RevokeRowAdded(t, t', row)
    ensures Inv(System(t', c))
  {
    RowAppended(t, row, t.certs);
    LinksFrame(t, t', c);
  }

  /** Nothing about certificates and their store transactions changed. */
  lemma LinksFrame(t: Tables, t': Tables, c: R.Chain)
    requires CertsOk(t, c) && QrsOk(t, c) && t'.certs == t.certs && t'.qrs == t.qrs
    requires forall k :: StoreStatus(t'.txs, k) == StoreStatus(t.txs, k)
    ensures CertsOk(t', c) && QrsOk(t', c)
  {
    forall k | 0 <= k < |t.certs|
      ensures CertOk(t'.certs[k], StoreStatus(t'.txs, k), c)
    {
      assert CertOk(t.certs[k], StoreStatus(t.txs, k), c);
    }
    forall q | 0 <= q < |t.qrs|
      ensures QrOk(t', c, t'.qrs[q].certificate)
    {
      assert QrOk(t, c, t.qrs[q].certificate);
    }
  }

  /** UNIQUE(certificate_uid) never fires: the allocator's proposal is free. */
  lemma ProposalIsFree(t: Tables, code: string, year: nat)
    requires Allocated(t.certs) && |code| <= 20
    requires IsUid(FormatUid(code, year, NextSequence(t.certs, code, year)))
    ensures FindUid(t.certs, FormatUid(code, year, NextSequence(t.certs, code, year))).None?
  {
    ProposalFits(code, year, NextSequence(t.certs, code, year));
    match FindUid(t.certs, FormatUid(code, year, NextSequence(t.certs, code, year)))
    case None =>
    case Some(k) => NextIsFresh(t.certs, code, year, k);
  }

  /** A new certificate and its pending store row. */
  ghost predicate Issues(t: Tables, t': Tables, user: Staff, year: nat, digest: Hash, cert: Certificate, row: TxRow) {
    && user.university < |t.unis| && t.unis[user.university].wallet.Some?
    && var code := t.unis[user.university].shortCode;
       && cert == I.NewCertificate(FormatUid(code, year, NextSequence(t.certs, code, year)), user.university, digest)
       && row == I.NewStoreRow(|t.certs|, t.unis[user.university].wallet.value, digest)
       && FindHash(t.certs, digest).None? && FindUid(t.certs, cert.uid).None?
       && t' == t.(certs := t.certs + [cert], txs := t.txs + [row])
  }

  lemma UploadIssues(t: Tables, user: Staff, known: bool, year: nat, digest: Hash)
    returns (cert: Certificate, row: TxRow)
    requires I.Upload(t, user, known, year, digest).1.Ok?
    ensures Issues(t, I.Upload(t, user, known, year, digest).0, user, year, digest, cert, row)
  {
    var t' := I.Upload(t, user, known, year, digest).0;
    cert, row := t'.certs[|t.certs|], t'.txs[|t.txs|];
  }

  lemma IssuedDistinct(t: Tables, t': Tables, user: Staff, year: nat, digest: Hash, cert: Certificate, row: TxRow)
    requires IssuersOk(t) && Distinct(t.certs) && Issues(t, t', user, year, digest, cert, row)
    ensures IssuersOk(t') && Distinct(t'.certs)
  {
  }

  lemma IssueKeeps(t: Tables, t': Tables, c: R.Chain, user: Staff, year: nat, digest: Hash, cert: Certificate,
                   row: TxRow)
    requires Inv(System(t, c)) && Issues(t, t', user, year, digest, cert, row)
    ensures Inv(System(t', c))
  {
    IssuedDistinct(t, t', user, year, digest, cert, row);
    CommitKeepsAllocated(t.certs, cert, t.unis[user.university].shortCode, year);
    RowAppended(t, row, t'.certs);
    UploadLinks(t, t', c, cert, row);
  }

  lemma UploadKeeps(t: Tables, c: R.Chain, user: Staff, known: bool, year: nat, digest: Hash)
    requires Inv(System(t, c))
    ensures Inv(System(I.Upload(t, user, known, year, digest).0, c))
  {
    var (t', reply) := I.Upload(t, user, known, year, digest);
    if reply.Ok? {
      var cert, row := UploadIssues(t, user, known, year, digest);
      IssueKeeps(t, t', c, user, year, digest, cert, row);
    } else {
      UploadRefused(t, user, known, year, digest);
    }
  }

  lemma UploadRefused(t: Tables, user: Staff, known: bool, year: nat, digest: Hash)
    ensures var (t', reply) := I.Upload(t, user, known, year, digest); !reply.Ok? ==> t' == t
  {
  }

  lemma UploadLinks(t: Tables, t': Tables, c: R.Chain, cert: Certificate, row: TxRow)
    requires CertsOk(t, c) && QrsOk(t, c)
    requires t'.certs == t.certs + [cert] && t'.qrs == t.qrs
    requires cert.status.Pending? && row.status.TxPending? && Matches(StoreOf(|t.certs|), row)
    requires forall k :: StoreStatus(t'.txs, k) ==
               if Matches(StoreOf(k), row) then Some(row.status) else StoreStatus(t.txs, k)
    ensures CertsOk(t', c) && QrsOk(t', c)
  {
    forall k | 0 <= k < |t'.certs|
      ensures CertOk(t'.certs[k], StoreStatus(t'.txs, k), c)
    {
      assert k < |t.certs| ==> CertOk(t.certs[k], StoreStatus(t.txs, k), c);
    }
    forall q | 0 <= q < |t'.qrs|
      ensures QrOk(t', c, t'.qrs[q].certificate)
    {
      assert QrOk(t, c, t.qrs[q].certificate);
    }
  }

  /** Universities never lose a wallet or a place. */
  lemma UniversitiesKeep(t: Tables, t': Tables, c: R.Chain)
    requires Inv(System(t, c)) && t' == t.(unis := t'.unis)
    requires UnisOnward(t.unis, t'.unis)
    ensures Inv(System(t', c))
  {
    LinksFrame(t, t', c);
    forall i | 0 <= i < |t.txs|
      ensures RowOk(t', t'.txs[i])
    {
      assert RowOk(t, t.txs[i]);
    }
  }

  // ----- QR codes and logs -----

  lemma {:induction false} NoScans(logs: seq<LogRow>, q: nat)
    requires forall i :: 0 <= i < |logs| ==> logs[i].qr != Some(q)
    ensures ScansOf(logs, q) == 0
  {
    if logs == [] {
    } else {
      NoScans(logs[..|logs| - 1], q);
    }
  }

  lemma ScansAppend(logs: seq<LogRow>, row: LogRow, q: nat)
    ensures ScansOf(logs + [row], q) == ScansOf(logs, q) + if row.qr == Some(q) then 1 else 0
  {
    assert (logs + [row])[..|logs + [row]| - 1] == logs;
  }

  /** The code itself keeps one active QR code per certificate; the partial unique index never fires. */
  lemma RetireClears(qrs: seq<Qr>, id: nat)
    requires OneActive(qrs)
    ensures var left := Q.Retire(qrs, FindActiveQr(qrs, id));
            && OneActive(left)
            && forall q :: 0 <= q < |left| ==> !(left[q].isActive && left[q].certificate == id)
  {
  }

  lemma RowsFrame(t: Tables, t': Tables)
    requires RowsOk(t) && t'.txs == t.txs && t'.certs == t.certs
    ensures RowsOk(t')
  {
    forall i | 0 <= i < |t.txs|
      ensures RowOk(t', t'.txs[i])
    {
      assert RowOk(t, t.txs[i]);
    }
  }

  lemma RetireCertificates(qrs: seq<Qr>, id: nat)
    ensures var left := Q.Retire(qrs, FindActiveQr(qrs, id));
            |left| == |qrs| && forall q :: 0 <= q < |qrs| ==> left[q].certificate == qrs[q].certificate
  {
  }

  lemma QrKept(t: Tables, t': Tables, c: R.Chain, k: nat)
    requires t'.certs == t.certs && t'.txs == t.txs && QrOk(t, c, k)
    ensures QrOk(t', c, k)
  {
  }

  lemma GenerateLinks(t: Tables, t': Tables, c: R.Chain, id: nat, qr: Qr)
    requires CertsOk(t, c) && QrsOk(t, c) && id < |t.certs| && t.certs[id].status.Confirmed?
    requires t' == t.(qrs := Q.Retire(t.qrs, FindActiveQr(t.qrs, id)) + [qr]) && qr.certificate == id
    ensures CertsOk(t', c) && QrsOk(t', c)
  {
    RetireCertificates(t.qrs, id);
    assert CertOk(t.certs[id], StoreStatus(t.txs, id), c);
    assert QrOk(t, c, id);
    forall q | 0 <= q < |t'.qrs|
      ensures QrOk(t', c, t'.qrs[q].certificate)
    {
      assert t'.qrs[q].certificate == if q < |t.qrs| then t.qrs[q].certificate else id;
      QrKept(t, t', c, t'.qrs[q].certificate);
    }
    forall k | 0 <= k < |t.certs|
      ensures CertOk(t'.certs[k], StoreStatus(t'.txs, k), c)
    {
      assert CertOk(t.certs[k], StoreStatus(t.txs, k), c);
    }
  }

  lemma GenerateLogs(t: Tables, t': Tables, id: nat, qr: Qr)
    requires LogsOk(t) && qr.scans == 0
    requires t' == t.(qrs := Q.Retire(t.qrs, FindActiveQr(t.qrs, id)) + [qr])
    ensures LogsOk(t')
  {
    NoScans(t.logs, |t.qrs|);
  }

  /** The conjuncts of the invariant that speak of certificates and their transactions. */
  lemma CertificatesFrame(t: Tables, t': Tables, c: R.Chain)
    requires IssuersOk(t) && RowsOk(t) && CertsOk(t, c)
    requires t'.unis == t.unis && t'.certs == t.certs && t'.txs == t.txs
    ensures IssuersOk(t') && RowsOk(t') && CertsOk(t', c)
  {
    RowsFrame(t, t');
    forall k | 0 <= k < |t.certs|
      ensures CertOk(t'.certs[k], StoreStatus(t'.txs, k), c)
    {
      assert CertOk(t.certs[k], StoreStatus(t.txs, k), c);
    }
  }

  lemma QrAddedKeeps(t: Tables, t': Tables, c: R.Chain, id: nat, qr: Qr)
    requires Inv(System(t, c)) && id < |t.certs| && t.certs[id].status.Confirmed?
    requires qr.certificate == id && qr.scans == 0
    requires t' == t.(qrs := Q.Retire(t.qrs, FindActiveQr(t.qrs, id)) + [qr])
    ensures Inv(System(t', c))
  {
    CertificatesFrame(t, t', c);
    OneMoreActive(t.qrs, id, qr);
    GenerateLinks(t, t', c, id, qr);
    GenerateLogs(t, t', id, qr);
  }

  lemma OneMoreActive(qrs: seq<Qr>, id: nat, qr: Qr)
    requires OneActive(qrs) && qr.certificate == id
    ensures OneActive(Q.Retire(qrs, FindActiveQr(qrs, id)) + [qr])
  {
    RetireClears(qrs, id);
  }

  lemma GenerateKeeps(t: Tables, c: R.Chain, id: nat, token: string)
    requires Inv(System(t, c))
    ensures Inv(System(Q.Generate(t, id, token).0, c))
  {
    var t' := Q.Generate(t, id, token).0;
    if t' != t {
      QrAddedKeeps(t, t', c, id, Qr(id, token, true, 0, None));
    }
  }

  lemma LoggedScans(t: Tables, row: LogRow)
    requires LogsOk(t) && LogAccepts(row) && row.qr.None?
    ensures LogsOk(t.(logs := t.logs + [row]))
  {
    forall q | 0 <= q < |t.qrs|
      ensures t.qrs[q].scans == ScansOf(t.logs + [row], q)
    {
      ScansAppend(t.logs, row, q);
    }
  }

  lemma LogKeeps(t: Tables, c: R.Chain, row: LogRow)
    requires Inv(System(t, c)) && LogAccepts(row) && row.qr.None?
    ensures Inv(System(t.(logs := t.logs + [row]), c))
  {
    var t' := t.(logs := t.logs + [row]);
    CertificatesFrame(t, t', c);
    LinksFrame(t, t', c);
    LoggedScans(t, row);
  }

  lemma CountedScans(t: Tables, row: LogRow, q: nat)
    requires LogsOk(t) && LogAccepts(row) && row.qr == Some(q) && q < |t.qrs|
    ensures LogsOk(Counted(t, q, row))
  {
    var t' := Counted(t, q, row);
    forall p | 0 <= p < |t.qrs|
      ensures t'.qrs[p].scans == ScansOf(t'.logs, p)
    {
      ScansAppend(t.logs, row, p);
    }
  }

  lemma CountedLinks(t: Tables, c: R.Chain, row: LogRow, q: nat)
    requires QrsOk(t, c) && q < |t.qrs|
    ensures QrsOk(Counted(t, q, row), c)
  {
    forall p | 0 <= p < |t.qrs|
      ensures QrOk(Counted(t, q, row), c, Counted(t, q, row).qrs[p].certificate)
    {
      assert QrOk(t, c, t.qrs[p].certificate);
    }
  }

  lemma ScanLogKeeps(t: Tables, c: R.Chain, row: LogRow, q: nat)
    requires Inv(System(t, c)) && LogAccepts(row) && row.qr == Some(q) && q < |t.qrs|
    ensures Inv(System(Counted(t, q, row), c))
  {
    CertificatesFrame(t, Counted(t, q, row), c);
    CountedScans(t, row, q);
    CountedLinks(t, c, row, q);
  }

  // ----- All events -----

  lemma ChainAfterExtends(s: System, e: Event)
    requires R.Consistent(s.chain)
    ensures R.Consistent(ChainAfter(s, e)) && R.Extends(s.chain, ChainAfter(s, e))
  {
    match e
    case Mined(op) => R.ApplyKeepsLedger(s.chain, op);
    case Confirm(_, _, _, _, io) => R.MineKeepsLedger(s.chain, io.between);
    case Initiate(_, _, _, io) => R.MineKeepsLedger(s.chain, io.between);
    case ConfirmRevoke(_, _, _, _, io, _) => R.MineKeepsLedger(s.chain, io.between);
    case CheckFile(_, _, _, io) => R.MineKeepsLedger(s.chain, io.between);
    case Scan(_, _, io) => R.MineKeepsLedger(s.chain, io.between);
    case _ =>
  }

  lemma StoredIsAccepted(row: LogRow)
    requires LogAccepts(row)
    ensures LogAccepts(Stored(row)) && Stored(row).qr == row.qr
  {
  }

  lemma LoggedKeeps<T>(t: Tables, c: R.Chain, row: LogRow, value: T)
    requires Inv(System(t, c)) && row.qr.None?
    ensures Inv(System(Log(t, row, value).0, c))
  {
    if LogAccepts(row) {
      StoredIsAccepted(row);
      LogKeeps(t, c, Stored(row));
    }
  }

  lemma EntryHasNoCode(t: Tables, user: nat, digest: Hash, hint: Option<string>, service: Service)
    ensures UploadEntry(t, user, digest, hint, service).Some? ==> UploadEntry(t, user, digest, hint,
                                                            service).value.row.qr.None?
  {
  }

  /** Calls of the verification flows append at most one log row. */
  lemma CheckFileKeeps(t: Tables, c: R.Chain, user: nat, digest: Hash, hint: Option<string>, service: Service)
    requires Inv(System(t, c))
    ensures Inv(System(VerifyUpload(t, user, digest, hint, service).0, c))
  {
    var entry := UploadEntry(t, user, digest, hint, service);
    EntryHasNoCode(t, user, digest, hint, service);
    if entry.Some? {
      LoggedKeeps(t, c, entry.value.row, entry.value.report);
    }
  }

  lemma ScanShape(t: Tables, token: string, now: nat, service: Service)
    returns (q: nat, row: LogRow)
    ensures VerifyQr(t, token, now, service).0 == t
         || (LogAccepts(row) && row.qr == Some(q) && q < |t.qrs|
             && VerifyQr(t, token, now, service).0 == Counted(t, q, Stored(row)))
  {
    var found := FindScan(t, token, now);
    if found.None? {
      return 0, NotFoundLog(None, 0, seq(64, i => '0'));
    }
    q := found.value;
    var id := t.qrs[q].certificate;
    var v := ScanVerdict(t.certs[id], service);
    row := ScanLog(t.certs[id], id, q, ScanResult(t.certs[id], v), v.Online?, StoreTxHash(t.txs, id));
  }

  lemma ScanKeeps(t: Tables, c: R.Chain, token: string, now: nat, service: Service)
    requires Inv(System(t, c))
    ensures Inv(System(VerifyQr(t, token, now, service).0, c))
  {
    var q, row := ScanShape(t, token, now, service);
    if VerifyQr(t, token, now, service).0 != t {
      StoredIsAccepted(row);
      ScanLogKeeps(t, c, Stored(row), q);
    }
  }

  /** What an event does to the tables is what its service call does. */
  lemma CallOf(s: System, e: Event)
    ensures
      var t := s.db;
      DbAfter(s, e) ==
        match e
        case Mined(_) => t
        case Register(code) => U.Register(t, code).0
        case VerifyUni(uni) => U.VerifyUni(t, uni).0
        case SetWallet(user, uni, wallet) => U.SetWallet(t, user, uni, wallet).0
        case Upload(user, known, year, digest) => I.Upload(t, user, known, year, digest).0
        case Confirm(user, id, txHash, receipt, io) =>
          I.Confirm(t, user, id, txHash, receipt, SecondRecord(s, id, io)).0
        case GenerateQr(id, token) => Q.Generate(t, id, token).0
        case Initiate(user, id, reason, io) => V.Initiate(t, user, id, reason, PreflightOf(s, user, id, io)).0
        case ConfirmRevoke(user, id, txHash, receipt, io, now) =>
          V.ConfirmRevoke(t, user, id, txHash, receipt, SecondRecord(s, id, io), now).0
        case CheckFile(verifier, digest, hint, io) =>
          VerifyUpload(t, verifier, digest, hint, ServiceOf(s, FindCertificate(t, digest, hint), digest, io)).0
        case Scan(token, now, io) => VerifyQr(t, token, now, ScanService(s, token, now, io)).0
  {
  }

  lemma SecondRecordIsRead(s: System, id: nat, io: Reads)
    ensures id < |s.db.certs| ==> ReadFrom(R.Mine(s.chain, io.between), s.db.certs[id].uid, SecondRecord(s, id, io))
  {
  }

  /** Calls of the issuance and revocation services and of the verification flows. */
  lemma CallKeeps(s: System, e: Event, c: R.Chain)
    requires Inv(System(s.db, c)) && c == ChainAfter(s, e)
    requires !e.Mined? && !e.Register? && !e.VerifyUni? && !e.SetWallet?
    ensures Inv(System(DbAfter(s, e), c))
  {
    var t := s.db;
    CallOf(s, e);
    match e {
      case Upload(user, known, year, digest) => UploadKeeps(t, c, user, known, year, digest);
      case Confirm(user, id, txHash, receipt, io) =>
        SecondRecordIsRead(s, id, io);
        ConfirmKeeps(t, c, user, id, txHash, receipt, SecondRecord(s, id, io));
      case GenerateQr(id, token) => GenerateKeeps(t, c, id, token);
      case Initiate(user, id, reason, io) => InitiateKeeps(t, c, user, id, reason, PreflightOf(s, user, id, io));
      case ConfirmRevoke(user, id, txHash, receipt, io, now) =>
        SecondRecordIsRead(s, id, io);
        RevokeKeeps(t, c, user, id, txHash, receipt, SecondRecord(s, id, io), now);
      case CheckFile(verifier, digest, hint, io) =>
        CheckFileKeeps(t, c, verifier, digest, hint, ServiceOf(s, FindCertificate(t, digest, hint), digest, io));
      case Scan(token, now, io) => ScanKeeps(t, c, token, now, ScanService(s, token, now, io));
    }
  }

  /** One step, whatever it is and however the registry moves meanwhile. */
  lemma StepKeeps(s: System, e: Event)
    requires Inv(s)
    ensures Inv(Step(s, e)) && R.Extends(s.chain, Step(s, e).chain)
  {
    var t, c := s.db, ChainAfter(s, e);
    ChainAfterExtends(s, e);
    ChainMoves(t, s.chain, c);
    if e.Register? || e.VerifyUni? || e.SetWallet? {
      StepFrame(s, e);
      UniversitiesKeep(t, DbAfter(s, e), c);
    } else if !e.Mined? {
      CallKeeps(s, e, c);
    }
  }

  lemma StartOk(owner: Address)
    ensures Inv(Start(owner))
  {
    assert R.RevokedUids(R.Deploy(owner)) == {};
    forall code, year: nat | IsCode(code)
      ensures Issued([], Prefix(code, year)) == Count(|Issued([], Prefix(code, year))|)
    {
    }
  }

  /** The invariant holds in every state that any run reaches, and the registry only grows. */
  lemma {:induction false} RunKeeps(s: System, es: seq<Event>)
    requires Inv(s)
    ensures Inv(Run(s, es)) && R.Extends(s.chain, Run(s, es).chain)
  {
    if es == [] {
    } else {
      RunKeeps(s, es[..|es| - 1]);
      StepKeeps(Run(s, es[..|es| - 1]), es[|es| - 1]);
    }
  }
}
