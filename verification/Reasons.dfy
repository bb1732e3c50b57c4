// Revocation over whole runs: the reason travels from the initiation to the revocation, and the
// pre-flight check is the contract's own check made early.
module Reasons {
  import opened Basics
  import opened HashCodec
  import opened ChainReader
  import opened Tables
  import opened Protocol
  import opened Shapes
  import opened Invariants
  import opened Agreement
  import opened Polling
  import R = Registry
  import I = Issuance
  import V = Revocation

  ghost predicate InitiatedBy(s: System, e: Event, k: nat) {
    e.Initiate? && e.id == k && V.Initiate(s.db, e.user, k, e.reason, PreflightOf(s, e.user, k, e.io)).1.Ok?
  }

  /** The reason given to the most recent initiate_revocation that was accepted for certificate `k`. */
  ghost function LastReason(owner: Address, es: seq<Event>, k: nat): Option<string> {
    if es == [] then None
    else
      var init, e := es[..|es| - 1], es[|es| - 1];
      if InitiatedBy(Run(Start(owner), init), e, k) then Some(e.reason) else LastReason(owner, init, k)
  }

  /** While a certificate is active its open revoke row carries the reason; afterwards the certificate does. */
  ghost predicate Carried(t: Tables, k: nat, reason: Option<string>) {
    if k >= |t.certs| then Newest(t.txs, OpenRevokeOf(k)).None? && reason.None?
    else if t.certs[k].isActive then Note(t, k) == reason
    else t.certs[k].revocationReason == Some(V.ReasonOrDefault(reason))
  }

  // ----- What one call does to the notes -----

  lemma NoteFrame(t: Tables, t': Tables, k: nat)
    requires |t.txs| == |t'.txs|
    requires forall j :: 0 <= j < |t.txs| ==>
               && (Matches(OpenRevokeOf(k), t.txs[j]) <==> Matches(OpenRevokeOf(k), t'.txs[j]))
               && t.txs[j].errorMessage == t'.txs[j].errorMessage
    ensures Newest(t'.txs, OpenRevokeOf(k)) == Newest(t.txs, OpenRevokeOf(k)) && Note(t', k) == Note(t, k)
  {
    NewestFrame(t.txs, t'.txs, OpenRevokeOf(k));
  }

  /** A confirmation touches at most one STORE_HASH row, and not its note. */
  lemma ConfirmLeavesRevokes(t: Tables, t': Tables, reply: Reply<I.ConfirmStatus>, id: nat, txHash: string,
                             receipt: Rpc<Option<Receipt>>, record: Rpc<Option<ChainRecord>>)
    requires ConfirmCases(t, t', reply, id, txHash, receipt, record)
    ensures |t'.txs| == |t.txs|
    ensures forall j :: 0 <= j < |t.txs| ==>
              t'.txs[j] == t.txs[j] || (SameOrigin(t.txs[j], t'.txs[j]) && t.txs[j].txType.StoreHash?)
    ensures |t'.certs| == |t.certs|
    ensures forall j :: 0 <= j < |t.certs| ==>
              t'.certs[j].isActive == t.certs[j].isActive && t'.certs[j].revocationReason == t.certs[j].revocationReason
  {
  }

  lemma CarriedFrame(t: Tables, t': Tables, k: nat, reason: Option<string>)
    requires Carried(t, k, reason) && |t'.certs| == |t.certs|
    requires Newest(t'.txs, OpenRevokeOf(k)) == Newest(t.txs, OpenRevokeOf(k)) && Note(t', k) == Note(t, k)
    requires k < |t.certs| ==>
      t'.certs[k].isActive == t.certs[k].isActive && t'.certs[k].revocationReason == t.certs[k].revocationReason
    ensures Carried(t', k, reason)
  {
  }

  lemma ConfirmCarries(t: Tables, t': Tables, reply: Reply<I.ConfirmStatus>, id: nat, txHash: string,
                       receipt: Rpc<Option<Receipt>>, record: Rpc<Option<ChainRecord>>, k: nat, reason: Option<string>)
    requires ConfirmCases(t, t', reply, id, txHash, receipt, record) && Carried(t, k, reason)
    ensures Carried(t', k, reason)
  {
    ConfirmLeavesRevokes(t, t', reply, id, txHash, receipt, record);
    NoteFrame(t, t', k);
    CarriedFrame(t, t', k, reason);
  }

  /** A confirmation of a revocation either revokes its certificate or leaves every note in place. */
  lemma RevokeKeepsNotes(t: Tables, t': Tables, reply: Reply<V.RevokeStatus>, user: Staff, id: nat, txHash: string,
                         receipt: Rpc<Option<Receipt>>, record: Rpc<Option<ChainRecord>>, now: nat, k: nat)
    requires RevokeCases(t, t', reply, user, id, txHash, receipt, record, now)
    requires reply != Ok(V.NowRevoked) || id != k
    ensures Newest(t'.txs, OpenRevokeOf(k)) == Newest(t.txs, OpenRevokeOf(k)) && Note(t', k) == Note(t, k)
  {
    RevokeLeavesOthers(t, t', reply, user, id, txHash, receipt, record, now, k);
    NoteFrame(t, t', k);
  }

  lemma RevokeLeavesOthers(t: Tables, t': Tables, reply: Reply<V.RevokeStatus>, user: Staff, id: nat, txHash: string,
                           receipt: Rpc<Option<Receipt>>, record: Rpc<Option<ChainRecord>>, now: nat, k: nat)
    requires RevokeCases(t, t', reply, user, id, txHash, receipt, record, now)
    requires reply != Ok(V.NowRevoked) || id != k
    ensures |t'.txs| == |t.txs|
    ensures forall j :: 0 <= j < |t.txs| ==>
              && (Matches(OpenRevokeOf(k), t.txs[j]) <==> Matches(OpenRevokeOf(k), t'.txs[j]))
              && t.txs[j].errorMessage == t'.txs[j].errorMessage
  {
  }

  lemma RevokeCarries(t: Tables, t': Tables, reply: Reply<V.RevokeStatus>, user: Staff, id: nat, txHash: string,
                      receipt: Rpc<Option<Receipt>>, record: Rpc<Option<ChainRecord>>, now: nat, k: nat,
                      reason: Option<string>)
    requires RevokeCases(t, t', reply, user, id, txHash, receipt, record, now) && Carried(t, k, reason)
    ensures Carried(t', k, reason)
  {
    if reply != Ok(V.NowRevoked) || id != k {
      RevokeKeepsNotes(t, t', reply, user, id, txHash, receipt, record, now, k);
    }
  }

  lemma NoteAppended(t: Tables, t': Tables, row: TxRow, k: nat)
    requires t'.txs == t.txs + [row]
    ensures
      if Matches(OpenRevokeOf(k), row) then Newest(t'.txs, OpenRevokeOf(k)) == Some(|t.txs|) && Note(t',
                                                            k) == row.errorMessage
      else Newest(t'.txs, OpenRevokeOf(k)) == Newest(t.txs, OpenRevokeOf(k)) && Note(t', k) == Note(t, k)
  {
    NewestAppend(t.txs, row, OpenRevokeOf(k));
  }

  lemma UploadKeepsNotes(t: Tables, user: Staff, known: bool, year: nat, digest: Hash, k: nat)
    ensures
      var t' := I.Upload(t, user, known, year, digest).0;
      Newest(t'.txs, OpenRevokeOf(k)) == Newest(t.txs, OpenRevokeOf(k)) && Note(t', k) == Note(t, k)
  {
    var t' := I.Upload(t, user, known, year, digest).0;
    var row := UploadShape(t, user, known, year, digest);
    if t' != t {
      NoteAppended(t, t', row, k);
    }
  }

  lemma InitiationCarries(t: Tables, t': Tables, id: nat, wallet: string, given: string, k: nat, reason: Option<string>)
    requires Carried(t, k, reason) && id < |t.certs| && t.certs[id].isActive && TxChecks(V.NewRevokeRow(id, wallet,
                                                            given))
    requires t' == t.(txs := t.txs + [V.NewRevokeRow(id, wallet, given)])
    ensures Carried(t', k, if id == k then Some(given) else reason)
  {
    NoteAppended(t, t', V.NewRevokeRow(id, wallet, given), k);
  }

  lemma InitiateCarries(t: Tables, user: Staff, id: nat, given: string, p: Option<V.Preflight>, k: nat,
                        reason: Option<string>)
    requires Carried(t, k, reason)
    ensures
      var (t', reply) := V.Initiate(t, user, id, given, p);
      Carried(t', k, if reply.Ok? && id == k then Some(given) else reason)
  {
    var (t', reply) := V.Initiate(t, user, id, given, p);
    InitiateShape(t, user, id, given, p);
    if reply.Ok? {
      InitiationCarries(t, t', id, reply.value, given, k, reason);
    }
  }

  lemma CertificateAdded(t: Tables, t': Tables, k: nat, reason: Option<string>)
    requires Carried(t, k, reason) && AddsCertificate(t, t')
    requires Newest(t'.txs, OpenRevokeOf(k)) == Newest(t.txs, OpenRevokeOf(k)) && Note(t', k) == Note(t, k)
    ensures Carried(t', k, reason)
  {
  }

  lemma UploadCarries(t: Tables, user: Staff, known: bool, year: nat, digest: Hash, k: nat, reason: Option<string>)
    requires Carried(t, k, reason)
    ensures Carried(I.Upload(t, user, known, year, digest).0, k, reason)
  {
    UploadFrame(t, user, known, year, digest);
    UploadKeepsNotes(t, user, known, year, digest, k);
    CertificateAdded(t, I.Upload(t, user, known, year, digest).0, k, reason);
  }

  lemma InitiateEventCarries(s: System, e: Event, k: nat, reason: Option<string>)
    requires e.Initiate? && Carried(s.db, k, reason)
    ensures Carried(DbAfter(s, e), k, if InitiatedBy(s, e, k) then Some(e.reason) else reason)
  {
    InitiateCarries(s.db, e.user, e.id, e.reason, PreflightOf(s, e.user, e.id, e.io), k, reason);
  }

  lemma ConfirmEventCarries(s: System, e: Event, k: nat, reason: Option<string>)
    requires e.Confirm? && Carried(s.db, k, reason)
    ensures Carried(DbAfter(s, e), k, reason)
  {
    var record := SecondRecord(s, e.id, e.io);
    var (t', reply) := I.Confirm(s.db, e.user, e.id, e.txHash, e.receipt, record);
    ConfirmShape(s.db, e.user, e.id, e.txHash, e.receipt, record);
    ConfirmCarries(s.db, t', reply, e.id, e.txHash, e.receipt, record, k, reason);
  }

  lemma RevokeEventCarries(s: System, e: Event, k: nat, reason: Option<string>)
    requires e.ConfirmRevoke? && Carried(s.db, k, reason)
    ensures Carried(DbAfter(s, e), k, reason)
  {
    var record := SecondRecord(s, e.id, e.io);
    var (t', reply) := V.ConfirmRevoke(s.db, e.user, e.id, e.txHash, e.receipt, record, e.now);
    RevokeShape(s.db, e.user, e.id, e.txHash, e.receipt, record, e.now);
    RevokeCarries(s.db, t', reply, e.user, e.id, e.txHash, e.receipt, record, e.now, k, reason);
  }

  lemma UploadEventCarries(s: System, e: Event, k: nat, reason: Option<string>)
    requires e.Upload? && Carried(s.db, k, reason)
    ensures Carried(DbAfter(s, e), k, reason)
  {
    UploadCarries(s.db, e.user, e.studentKnown, e.year, e.digest, k, reason);
  }

  lemma CallCarries(s: System, e: Event, k: nat, reason: Option<string>)
    requires !e.Initiate? && Carried(s.db, k, reason)
    ensures Carried(DbAfter(s, e), k, reason)
  {
    if e.Confirm? {
      ConfirmEventCarries(s, e, k, reason);
    } else if e.ConfirmRevoke? {
      RevokeEventCarries(s, e, k, reason);
    } else if e.Upload? {
      UploadEventCarries(s, e, k, reason);
    } else {
      StepFrame(s, e);
      CarriedByTables(s.db, DbAfter(s, e), k, reason);
    }
  }

  lemma CarriedByTables(t: Tables, t': Tables, k: nat, reason: Option<string>)
    requires Carried(t, k, reason) && t'.certs == t.certs && t'.txs == t.txs
    ensures Carried(t', k, reason)
  {
  }

  lemma StepCarries(s: System, e: Event, k: nat, reason: Option<string>)
    requires Carried(s.db, k, reason)
    ensures Carried(Step(s, e).db, k, if InitiatedBy(s, e, k) then Some(e.reason) else reason)
  {
    if e.Initiate? {
      InitiateEventCarries(s, e, k, reason);
    } else {
      CallCarries(s, e, k, reason);
    }
  }

  lemma {:induction false} RunCarries(owner: Address, es: seq<Event>, k: nat)
    ensures Carried(Run(Start(owner), es).db, k, LastReason(owner, es, k))
  {
    if es == [] {
    } else {
      RunCarries(owner, es[..|es| - 1], k);
      StepCarries(Run(Start(owner), es[..|es| - 1]), es[|es| - 1], k, LastReason(owner, es[..|es| - 1], k));
    }
  }

  /**
   * Reason hand-off. However many initiations, polls and outages come before it, a revocation records
   * the reason given to the most recent accepted initiation for that certificate, and the default text
   * exactly when there was none or it was the empty string. A university-side revocation without any
   * initiation, even of a certificate that was never confirmed, takes the same path.
   */
  lemma ReasonHandOff(owner: Address, es: seq<Event>, k: nat)
    requires k < |Run(Start(owner), es).db.certs| && Run(Start(owner), es).db.certs[k].status.Revoked?
    ensures
      var reason, last := Run(Start(owner), es).db.certs[k].revocationReason, LastReason(owner, es, k);
      && (last.Some? && last.value != "" ==> reason == last)
      && (last.None? || last.value == "" ==> reason == Some("Revocation confirmed on blockchain"))
  {
    StartOk(owner);
    RunKeeps(Start(owner), es);
    var s := Run(Start(owner), es);
    assert CertOk(s.db.certs[k], StoreStatus(s.db.txs, k), s.chain);
    RunCarries(owner, es, k);
  }

  /**
   * The pre-flight check of a revocation accepts exactly when the contract would accept the
   * university's revokeCertificate transaction in the chain state that was read.
   */
  lemma PreflightIsContract(s: System, user: Staff, id: nat, reason: string, mask: seq<bool>, now: R.Timestamp)
    requires id < |s.db.certs| && s.db.certs[id].university == user.university
    requires s.db.certs[id].status.Confirmed? && s.db.certs[id].isActive
    requires user.university < |s.db.unis| && s.db.unis[user.university].wallet.Some?
    ensures IsAddress(Lower(s.db.unis[user.university].wallet.value))
    ensures
      var preflight := PreflightOf(s, user, id, Reads(true, Up, [], Up, mask));
      var sender := Lower(s.db.unis[user.university].wallet.value);
      V.Initiate(s.db, user, id, reason, preflight).1.Ok? <==>
      R.Execute(s.chain, R.Op(sender, now, R.RevokeCertificate(s.db.certs[id].uid))).Success?
  {
    var wallet := s.db.unis[user.university].wallet.value;
    LowerWalletIsAddress(wallet);
    var uid := s.db.certs[id].uid;
    if uid in s.chain.records {
      LowerUndoesRecase(s.chain.records[uid].issuer, mask);
    }
  }
}
