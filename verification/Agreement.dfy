// What holds between the two ledgers over whole runs.
module Agreement {
  import opened Basics
  import opened HashCodec
  import opened ChainReader
  import opened Tables
  import opened UidAllocator
  import opened Protocol
  import opened Shapes
  import opened Invariants
  import R = Registry
  import I = Issuance
  import V = Revocation
  import Q = QrCodes
  import U = Universities

  // ----- One step, seen from one certificate -----

  function Rank(status: BlockchainStatus): nat {
    match status
    case Pending => 0
    case Submitted => 1
    case Confirmed => 2
    case Revoked => 3
    case Failed => 4
  }

  /** Certificates are never removed, never change identity and never move down. */
  ghost predicate Onward(certs: seq<Certificate>, certs': seq<Certificate>) {
    && |certs| <= |certs'|
    && forall k :: 0 <= k < |certs| ==>
         && certs'[k].uid == certs[k].uid && certs'[k].hash == certs[k].hash
         && certs'[k].university == certs[k].university
         && Rank(certs[k].status) <= Rank(certs'[k].status)
         && (certs[k].status.Revoked? ==> certs'[k] == certs[k])
  }

  lemma ConfirmOnward(t: Tables, t': Tables, reply: Reply<I.ConfirmStatus>, id: nat, txHash: string,
                      receipt: Rpc<Option<Receipt>>, record: Rpc<Option<ChainRecord>>)
    requires ConfirmCases(t, t', reply, id, txHash, receipt, record)
    ensures Onward(t.certs, t'.certs)
  {
  }

  lemma ActiveIsOpen(t: Tables, c: R.Chain, id: nat)
    requires CertsOk(t, c) && id < |t.certs| && t.certs[id].isActive
    ensures Rank(t.certs[id].status) <= 2
  {
    assert CertOk(t.certs[id], StoreStatus(t.txs, id), c);
  }

  lemma RevokeOnward(t: Tables, t': Tables, reply: Reply<V.RevokeStatus>, user: Staff, id: nat, txHash: string,
                     receipt: Rpc<Option<Receipt>>, record: Rpc<Option<ChainRecord>>, now: nat)
    requires RevokeCases(t, t', reply, user, id, txHash, receipt, record, now)
    requires id < |t.certs| && t.certs[id].isActive ==> Rank(t.certs[id].status) <= 2
    ensures Onward(t.certs, t'.certs)
  {
  }

  lemma StepOnward(s: System, e: Event)
    requires CertsOk(s.db, s.chain)
    ensures Onward(s.db.certs, Step(s, e).db.certs)
  {
    StepFrame(s, e);
    match e
    case Confirm(user, id, txHash, receipt, io) =>
      var record := SecondRecord(s, id, io);
      var (t', reply) := I.Confirm(s.db, user, id, txHash, receipt, record);
      ConfirmShape(s.db, user, id, txHash, receipt, record);
      ConfirmOnward(s.db, t', reply, id, txHash, receipt, record);
    case ConfirmRevoke(user, id, txHash, receipt, io, now) =>
      var record := SecondRecord(s, id, io);
      var (t', reply) := V.ConfirmRevoke(s.db, user, id, txHash, receipt, record, now);
      RevokeShape(s.db, user, id, txHash, receipt, record, now);
      if id < |s.db.certs| && s.db.certs[id].isActive {
        ActiveIsOpen(s.db, s.chain, id);
      }
      RevokeOnward(s.db, t', reply, user, id, txHash, receipt, record, now);
    case _ =>
  }

  lemma {:induction false} RunOnward(s: System, es: seq<Event>)
    requires Inv(s)
    ensures Onward(s.db.certs, Run(s, es).db.certs)
  {
    if es == [] {
    } else {
      var init := es[..|es| - 1];
      RunOnward(s, init);
      RunKeeps(s, init);
      StepOnward(Run(s, init), es[|es| - 1]);
    }
  }

  /**
   * Lifecycle over whole runs. A certificate's status never moves down, no committed certificate is
   * ever FAILED, it is inactive exactly when it is REVOKED, and REVOKED means revoked on the chain.
   */
  lemma Lifecycle(owner: Address, es: seq<Event>, more: seq<Event>, k: nat)
    requires k < |Run(Start(owner), es).db.certs|
    ensures k < |Run(Start(owner), es + more).db.certs|
    ensures
      var later := Run(Start(owner), es + more);
      Grown(Run(Start(owner), es).db.certs[k], later.db.certs[k], later.chain)
  {
    var s, later := Run(Start(owner), es), Run(Start(owner), es + more);
    StartOk(owner);
    RunKeeps(Start(owner), es);
    RunAppend(Start(owner), es, more);
    RunOnward(s, more);
    RunKeeps(Start(owner), es + more);
    GrownBetween(s.db.certs, later.db, later.chain, k);
  }

  /** How a certificate may have changed from one moment of a run to a later one. */
  ghost predicate Grown(before: Certificate, after: Certificate, c: R.Chain) {
    && before.uid == after.uid && before.hash == after.hash
    && Rank(before.status) <= Rank(after.status) && !after.status.Failed?
    && (after.status.Revoked? <==> !after.isActive)
    && (after.status.Revoked? <==>
          after.revocationReason.Some? && after.revokedBy.Some? && after.revokedAt.Some?)
    && (after.status.Revoked? ==> RevokedThere(c, after))
    && (before.status.Revoked? ==> after == before)
  }

  lemma GrownBetween(before: seq<Certificate>, t: Tables, c: R.Chain, k: nat)
    requires CertsOk(t, c) && Onward(before, t.certs) && k < |before|
    ensures Grown(before[k], t.certs[k], c)
  {
    assert CertOk(t.certs[k], StoreStatus(t.txs, k), c);
  }

  // ----- Ledger agreement -----

  /** Exactly one STORE_HASH row belongs to certificate `k`: row `i`, mined and confirmed. */
  ghost predicate OnlyStoreRow(t: Tables, k: nat, i: nat) {
    && i < |t.txs| && Matches(StoreOf(k), t.txs[i])
    && (forall j :: 0 <= j < |t.txs| && Matches(StoreOf(k), t.txs[j]) ==> j == i)
    && t.txs[i].status.TxConfirmed?
    && t.txs[i].txHash.Some? && IsTxHash(t.txs[i].txHash.value)
    && t.txs[i].blockNumber.Some? && t.txs[i].blockNumber.value > 0
    && k < |t.certs| && t.txs[i].hashStored == Some(t.certs[k].hash)
  }

  lemma SettledRow(s: System, k: nat)
    requires Inv(s) && k < |s.db.certs| && StoreStatus(s.db.txs, k) == Some(TxConfirmed)
    ensures exists i :: OnlyStoreRow(s.db, k, i)
  {
    var t := s.db;
    var i := Newest(t.txs, StoreOf(k)).value;
    assert RowOk(t, t.txs[i]);
    forall j | 0 <= j < |t.txs| && Matches(StoreOf(k), t.txs[j])
      ensures j == i
    {
      assert t.txs[j].certificate == t.txs[i].certificate == k;
    }
    assert OnlyStoreRow(t, k, i);
  }

  /**
   * In every state that any run reaches, under any interleaving of registry transactions and any
   * outages: a CONFIRMED certificate is on the chain with its digest and has one settled store row.
   */
  lemma LedgerAgreement(owner: Address, es: seq<Event>, k: nat)
    requires k < |Run(Start(owner), es).db.certs|
    requires Run(Start(owner), es).db.certs[k].status.Confirmed?
    ensures
      var s := Run(Start(owner), es);
      && s.db.certs[k].uid in s.chain.records
      && HashToBytes32(s.db.certs[k].hash) == s.chain.records[s.db.certs[k].uid].hash
      && exists i :: OnlyStoreRow(s.db, k, i)
  {
    StartOk(owner);
    RunKeeps(Start(owner), es);
    var s := Run(Start(owner), es);
    assert CertOk(s.db.certs[k], StoreStatus(s.db.txs, k), s.chain);
    var h := s.db.certs[k].hash;
    HashBytesBijection(h, h, s.chain.records[s.db.certs[k].uid].hash);
    SettledRow(s, k);
  }

  ghost predicate IsConfirmed(s: System, k: nat) {
    k < |s.db.certs| && s.db.certs[k].status.Confirmed?
  }

  /** The wallet of the university that issued certificate `k`. */
  ghost predicate WalletIs(s: System, k: nat, wallet: string) {
    && k < |s.db.certs| && s.db.certs[k].university < |s.db.unis|
    && s.db.unis[s.db.certs[k].university].wallet == Some(wallet)
  }

  /** The registry names `wallet` as the issuer of certificate `k`. */
  ghost predicate IssuedWith(s: System, k: nat, wallet: string) {
    && k < |s.db.certs| && s.db.certs[k].uid in s.chain.records
    && s.chain.records[s.db.certs[k].uid].issuer == Lower(wallet)
  }

  lemma RevokeConfirmsNone(t: Tables, t': Tables, reply: Reply<V.RevokeStatus>, user: Staff, id: nat, txHash: string,
                           receipt: Rpc<Option<Receipt>>, record: Rpc<Option<ChainRecord>>, now: nat, k: nat)
    requires RevokeCases(t, t', reply, user, id, txHash, receipt, record, now)
    ensures |t'.certs| == |t.certs| && (k < |t.certs| ==> t'.certs[k] == t.certs[k] || t'.certs[k].status.Revoked?)
  {
  }

  lemma NotConfirmedBy(s: System, e: Event, k: nat)
    requires !e.Confirm? && !IsConfirmed(s, k)
    ensures !IsConfirmed(Step(s, e), k)
  {
    StepFrame(s, e);
    match e
    case ConfirmRevoke(user, id, txHash, receipt, io, now) =>
      var record := SecondRecord(s, id, io);
      var (t', reply) := V.ConfirmRevoke(s.db, user, id, txHash, receipt, record, now);
      RevokeShape(s.db, user, id, txHash, receipt, record, now);
      RevokeConfirmsNone(s.db, t', reply, user, id, txHash, receipt, record, now, k);
    case _ =>
  }

  lemma ConfirmChecksIssuer(t: Tables, t': Tables, c: R.Chain, reply: Reply<I.ConfirmStatus>, id: nat, txHash: string,
                            receipt: Rpc<Option<Receipt>>, record: Rpc<Option<ChainRecord>>, k: nat)
    requires ConfirmCases(t, t', reply, id, txHash, receipt, record)
    requires IssuersOk(t) && k < |t'.certs| && t'.certs[k].status.Confirmed?
    requires k < |t.certs| ==> !t.certs[k].status.Confirmed?
    requires id < |t.certs| ==> ReadFrom(c, t.certs[id].uid, record)
    ensures id == k && k < |t.certs| && t.certs[k].uid in c.records && t'.certs[k].uid == t.certs[k].uid
    ensures t'.certs[k].university == t.certs[k].university
    ensures c.records[t.certs[k].uid].issuer == Lower(t.unis[t.certs[k].university].wallet.value)
  {
    var uid := t.certs[id].uid;
    var mask :| record.value == GetRecord(c, uid, mask);
    LowerUndoesRecase(c.records[uid].issuer, mask);
  }

  lemma ConfirmStep(s: System, e: Event)
    requires e.Confirm?
    ensures Step(s, e) == System(I.Confirm(s.db, e.user, e.id, e.txHash, e.receipt, SecondRecord(s, e.id, e.io)).0,
                                 R.Mine(s.chain, e.io.between))
  {
  }

  lemma ConfirmedFrom(s: System, later: System, reply: Reply<I.ConfirmStatus>, id: nat, txHash: string,
                      receipt: Rpc<Option<Receipt>>, record: Rpc<Option<ChainRecord>>, k: nat)
    requires IssuersOk(s.db) && ConfirmCases(s.db, later.db, reply, id, txHash, receipt, record)
    requires id < |s.db.certs| ==> ReadFrom(later.chain, s.db.certs[id].uid, record)
    requires !IsConfirmed(s, k) && IsConfirmed(later, k)
    ensures id == k
    ensures exists wallet :: WalletIs(s, k, wallet) && IssuedWith(later, k, wallet)
  {
    ConfirmChecksIssuer(s.db, later.db, later.chain, reply, id, txHash, receipt, record, k);
    var wallet := s.db.unis[s.db.certs[k].university].wallet.value;
    assert WalletIs(s, k, wallet) && IssuedWith(later, k, wallet);
  }

  lemma ConfirmedBy(s: System, e: Event, k: nat)
    requires IssuersOk(s.db) && e.Confirm? && !IsConfirmed(s, k) && IsConfirmed(Step(s, e), k)
    ensures e.id == k
    ensures exists wallet :: WalletIs(s, k, wallet) && IssuedWith(Step(s, e), k, wallet)
  {
    var record := SecondRecord(s, e.id, e.io);
    var reply := I.Confirm(s.db, e.user, e.id, e.txHash, e.receipt, record).1;
    ConfirmStep(s, e);
    ConfirmShape(s.db, e.user, e.id, e.txHash, e.receipt, record);
    SecondRecordIsRead(s, e.id, e.io);
    ConfirmedFrom(s, Step(s, e), reply, e.id, e.txHash, e.receipt, record, k);
  }

  /** Certificates become CONFIRMED only by a confirmation that saw the university's own wallet. */
  lemma BecomesConfirmed(s: System, e: Event, k: nat)
    requires Inv(s) && !IsConfirmed(s, k) && IsConfirmed(Step(s, e), k)
    ensures e.Confirm? && e.id == k
    ensures exists wallet :: WalletIs(s, k, wallet) && IssuedWith(Step(s, e), k, wallet)
  {
    if e.Confirm? {
      ConfirmedBy(s, e, k);
    } else {
      NotConfirmedBy(s, e, k);
    }
  }

  /** The event that confirmed certificate `k` in a run, and the wallet it checked against the chain. */
  ghost predicate ConfirmedAt(owner: Address, es: seq<Event>, k: nat, m: nat, wallet: string) {
    && m < |es| && es[m].Confirm? && es[m].id == k
    && !IsConfirmed(Run(Start(owner), es[..m]), k) && IsConfirmed(Run(Start(owner), es[..m + 1]), k)
    && WalletIs(Run(Start(owner), es[..m]), k, wallet)
  }

  lemma ConfirmedEarlier(owner: Address, es: seq<Event>, n: nat, k: nat, m: nat, wallet: string)
    requires n <= |es| && ConfirmedAt(owner, es[..n], k, m, wallet)
    ensures ConfirmedAt(owner, es, k, m, wallet)
  {
    assert es[..n][..m] == es[..m] && es[..n][..m + 1] == es[..m + 1];
  }

  lemma IssuerStays(s: System, e: Event, k: nat, wallet: string)
    requires Inv(s) && IssuedWith(s, k, wallet)
    ensures IssuedWith(Step(s, e), k, wallet)
  {
    StepOnward(s, e);
    ChainAfterExtends(s, e);
  }

  /**
   * Every CONFIRMED certificate was confirmed by one event of the run, and to this day the registry
   * names as its issuer the wallet that its university had at that moment.
   */
  lemma {:induction false} IssuerMatchedAtConfirmation(owner: Address, es: seq<Event>, k: nat)
    requires IsConfirmed(Run(Start(owner), es), k)
    ensures exists m, wallet :: ConfirmedAt(owner, es, k, m, wallet) && IssuedWith(Run(Start(owner), es), k, wallet)
  {
    StartOk(owner);
    if es != [] {
      var last := |es| - 1;
      var before := Run(Start(owner), es[..last]);
      RunKeeps(Start(owner), es[..last]);
      assert es[..last + 1] == es;
      if IsConfirmed(before, k) {
        IssuerMatchedAtConfirmation(owner, es[..last], k);
        var m, wallet :| ConfirmedAt(owner, es[..last], k, m, wallet) && IssuedWith(before, k, wallet);
        ConfirmedEarlier(owner, es, last, k, m, wallet);
        IssuerStays(before, es[last], k, wallet);
      } else {
        BecomesConfirmed(before, es[last], k);
        var wallet :| WalletIs(before, k, wallet) && IssuedWith(Step(before, es[last]), k, wallet);
        assert ConfirmedAt(owner, es, k, last, wallet);
      }
    }
  }

  // ----- UIDs -----

  /** Over every run the numbers committed for a short code and a year are 1, 2, ..., n in that order. */
  lemma UidsAreConsecutive(owner: Address, es: seq<Event>, code: string, year: nat)
    requires IsCode(code)
    ensures
      var certs := Run(Start(owner), es).db.certs;
      && Issued(certs, Prefix(code, year)) == Count(|Issued(certs, Prefix(code, year))|)
      && NextSequence(certs, code, year) == |Issued(certs, Prefix(code, year))| + 1
      && forall j, k :: 0 <= j < k < |certs| ==> certs[j].uid != certs[k].uid
  {
    StartOk(owner);
    RunKeeps(Start(owner), es);
    NextIsCount(Run(Start(owner), es).db.certs, code, year);
  }

  /** A verified university with a wallet uploads a new digest for a known student. */
  ghost predicate Admissible(t: Tables, user: Staff, digest: Hash) {
    && user.university < |t.unis| && t.unis[user.university].isVerified
    && t.unis[user.university].wallet.Some? && FindHash(t.certs, digest).None?
  }

  /**
   * Such an upload fails exactly when the short code is not alphanumeric, the year does not have four
   * digits, or 99999 certificates have been issued; then the tables are unchanged.
   */
  ghost predicate UploadGoes(t: Tables, user: Staff, year: nat, digest: Hash)
    requires user.university < |t.unis|
  {
    var code := t.unis[user.university].shortCode;
    var n := |Issued(t.certs, Prefix(code, year))|;
    var (t', reply) := I.Upload(t, user, true, year, digest);
    && (reply.Ok? <==> IsCode(code) && 1000 <= year <= 9999 && n < 99999)
    && (reply.Ok? ==>
          && reply.value == |t.certs| && |t'.certs| == |t.certs| + 1
          && t'.certs[reply.value].uid == FormatUid(code, year, n + 1))
    && (!reply.Ok? ==> reply == Raise(IntegrityError) && t' == t)
  }

  lemma UploadOutcome(owner: Address, es: seq<Event>, user: Staff, year: nat, digest: Hash)
    requires Admissible(Run(Start(owner), es).db, user, digest)
    ensures UploadGoes(Run(Start(owner), es).db, user, year, digest)
  {
    StartOk(owner);
    RunKeeps(Start(owner), es);
    UploadFrom(Run(Start(owner), es).db, user, year, digest);
  }

  lemma UploadFrom(t: Tables, user: Staff, year: nat, digest: Hash)
    requires Allocated(t.certs) && Admissible(t, user, digest)
    ensures UploadGoes(t, user, year, digest)
  {
    var code := t.unis[user.university].shortCode;
    var next := NextSequence(t.certs, code, year);
    ProposalFits(code, year, next);
    if IsCode(code) {
      NextIsCount(t.certs, code, year);
    }
    if IsUid(FormatUid(code, year, next)) {
      ProposalIsFree(t, code, year);
    }
  }

  // ----- QR codes -----

  /**
   * Generating a QR code for a CONFIRMED certificate fails only for a token of the wrong length or one
   * already taken: the index that allows one active code per certificate never has to fire, because
   * the call retires the old code first.
   */
  lemma GenerateOutcome(owner: Address, es: seq<Event>, id: nat, token: string)
    requires id < |Run(Start(owner), es).db.certs| && Run(Start(owner), es).db.certs[id].status.Confirmed?
    ensures
      var t := Run(Start(owner), es).db;
      var (t', reply) := Q.Generate(t, id, token);
      && (reply.Ok? <==> 32 <= |token| <= 128 && FindToken(t.qrs, token).None?)
      && (reply.Ok? ==> FindActiveQr(t'.qrs, id) == Some(reply.value) && reply.value == |t.qrs|)
      && (!reply.Ok? ==> t' == t)
  {
    StartOk(owner);
    RunKeeps(Start(owner), es);
    GenerateFrom(Run(Start(owner), es).db, id, token);
  }

  lemma FreshCodeFits(t: Tables, id: nat, token: string)
    requires OneActive(t.qrs)
    ensures QrAccepts(Q.Retire(t.qrs, FindActiveQr(t.qrs, id)), Qr(id, token, true, 0, None)) <==>
            32 <= |token| <= 128 && FindToken(t.qrs, token).None?
  {
    var left := Q.Retire(t.qrs, FindActiveQr(t.qrs, id));
    RetireClears(t.qrs, id);
    assert forall j :: 0 <= j < |left| ==> left[j].token == t.qrs[j].token;
    if FindToken(t.qrs, token).Some? {
      assert left[FindToken(t.qrs, token).value].token == token;
    }
  }

  lemma GenerateFrom(t: Tables, id: nat, token: string)
    requires OneActive(t.qrs) && id < |t.certs| && t.certs[id].status.Confirmed?
    ensures
      var (t', reply) := Q.Generate(t, id, token);
      && (reply.Ok? <==> 32 <= |token| <= 128 && FindToken(t.qrs, token).None?)
      && (reply.Ok? ==> FindActiveQr(t'.qrs, id) == Some(reply.value) && reply.value == |t.qrs|)
      && (!reply.Ok? ==> t' == t)
  {
    FreshCodeFits(t, id, token);
  }

  // ----- Universities -----

  /** Short codes, and wallets as exact strings, are pairwise distinct. */
  ghost predicate UnisDistinct(unis: seq<University>) {
    forall u, v :: 0 <= u < v < |unis| ==>
      && unis[u].shortCode != unis[v].shortCode
      && (unis[u].wallet.Some? ==> unis[u].wallet != unis[v].wallet)
  }

  lemma RegisterDistinct(t: Tables, code: string)
    requires UnisDistinct(t.unis)
    ensures UnisDistinct(U.Register(t, code).0.unis)
  {
  }

  lemma VerifyDistinct(t: Tables, u: nat)
    requires UnisDistinct(t.unis)
    ensures UnisDistinct(U.VerifyUni(t, u).0.unis)
  {
  }

  lemma SetWalletDistinct(t: Tables, user: Staff, u: nat, wallet: string)
    requires UnisDistinct(t.unis)
    ensures UnisDistinct(U.SetWallet(t, user, u, wallet).0.unis)
  {
  }

  lemma StepUniversities(s: System, e: Event)
    requires UnisDistinct(s.db.unis)
    ensures UnisDistinct(Step(s, e).db.unis) && UnisOnward(s.db.unis, Step(s, e).db.unis)
  {
    StepFrame(s, e);
    match e
    case Register(code) => RegisterDistinct(s.db, code);
    case VerifyUni(u) => VerifyDistinct(s.db, u);
    case SetWallet(user, u, wallet) => SetWalletDistinct(s.db, user, u, wallet);
    case _ =>
  }

  lemma {:induction false} RunUniversities(s: System, es: seq<Event>)
    requires UnisDistinct(s.db.unis)
    ensures UnisDistinct(Run(s, es).db.unis) && UnisOnward(s.db.unis, Run(s, es).db.unis)
  {
    if es == [] {
    } else {
      RunUniversities(s, es[..|es| - 1]);
      StepUniversities(Run(s, es[..|es| - 1]), es[|es| - 1]);
    }
  }

  /**
   * Over whole runs no university is removed or renamed or loses a wallet it has set, and short codes
   * and wallets, as exact strings, stay pairwise distinct.
   */
  lemma UniversitiesKept(owner: Address, es: seq<Event>, more: seq<Event>)
    ensures UnisDistinct(Run(Start(owner), es + more).db.unis)
    ensures UnisOnward(Run(Start(owner), es).db.unis, Run(Start(owner), es + more).db.unis)
  {
    RunUniversities(Start(owner), es);
    RunAppend(Start(owner), es, more);
    RunUniversities(Run(Start(owner), es), more);
  }
}
