// When the second phase of issuance and of revocation goes through, in terms of the registry.
module Outcomes {
  import opened Basics
  import opened HashCodec
  import opened ChainReader
  import opened Tables
  import opened Protocol
  import opened Invariants
  import opened Agreement
  import opened Shapes
  import R = Registry
  import I = Issuance
  import V = Revocation

  /** The numbers and the block hash fit their columns. */
  predicate InRange(receipt: Receipt) {
    && 0 < receipt.blockNumber < 0x8000_0000_0000_0000 && |receipt.blockHash| <= 66
    && 0 < receipt.gasUsed < 0x8000_0000_0000_0000
    && receipt.gasPrice < 1_000_000_000_000_000_000_000_000_000_000
    && receipt.gasUsed * receipt.gasPrice < 1_000_000_000_000_000_000_000_000_000_000
  }

  /** What the transaction table asks of the hash and the receipt that are to be written to row `i`. */
  predicate Recordable(txs: seq<TxRow>, i: nat, txHash: string, receipt: Receipt) {
    && IsTxHash(txHash) && InRange(receipt)
    && forall j :: 0 <= j < |txs| && j != i ==> txs[j].txHash != Some(txHash)
  }

  lemma RecordableIs(txs: seq<TxRow>, i: nat, txHash: string, receipt: Receipt, at: nat)
    requires i < |txs|
    ensures TxAccepts(txs, i, MinedRow(txs[i], txHash, receipt, at)) <==> Recordable(txs, i, txHash, receipt)
  {
  }

  /** The record the second read returns, compared the way the service compares it. */
  lemma RecordSays(c: R.Chain, cert: Certificate, mask: seq<bool>, wallet: string)
    ensures GetRecord(c, cert.uid, mask).Some? <==> cert.uid in c.records
    ensures cert.uid in c.records ==>
              var rec := GetRecord(c, cert.uid, mask).value;
              && (Lower(rec.hash) == Lower(cert.hash) <==> OnChain(c, cert))
              && (Lower(rec.issuer) == Lower(wallet) <==> c.records[cert.uid].issuer == Lower(wallet))
              && (rec.status == RevokedOnChain <==> RevokedThere(c, cert))
  {
    if cert.uid in c.records {
      LowerHash(cert.hash);
      LowerHash(GetRecord(c, cert.uid, mask).value.hash);
      LowerUndoesRecase(c.records[cert.uid].issuer, mask);
    }
  }

  lemma ConfirmFrom(t: Tables, c: R.Chain, user: Staff, id: nat, txHash: string, receipt: Receipt, mask: seq<bool>,
                    slot: nat)
    requires IssuersOk(t) && id < |t.certs| && Newest(t.txs, StoreOf(id)) == Some(slot)
    ensures
      var cert := t.certs[id];
      I.Confirm(t, user, id, txHash, Answer(Some(receipt)), Answer(GetRecord(c, cert.uid,
                                                            mask))).1 == Ok(I.NowConfirmed) <==>
        && cert.university == user.university && I.Confirmable(cert) && receipt.status != 0
        && OnChain(c, cert) && c.records[cert.uid].issuer == Lower(t.unis[cert.university].wallet.value)
        && Recordable(t.txs, slot, txHash, receipt)
  {
    var cert := t.certs[id];
    RecordSays(c, cert, mask, t.unis[cert.university].wallet.value);
    ConfirmSucceeds(t, user, id, txHash, Answer(Some(receipt)), Answer(GetRecord(c, cert.uid, mask)));
    if cert.uid in c.records {
      RecordableIs(t.txs, slot, txHash, receipt, GetRecord(c, cert.uid, mask).value.issuedAt);
    }
  }

  /**
   * In every run, a confirmation whose reads are answered succeeds exactly when the certificate is the
   * caller's and unconfirmed, the receipt is a success, the registry holds the certificate's digest
   * under its UID with the university's present wallet as issuer, and the receipt can be recorded.
   */
  lemma ConfirmOutcome(owner: Address, es: seq<Event>, user: Staff, id: nat, txHash: string, receipt: Receipt,
                       io: Reads)
    requires id < |Run(Start(owner), es).db.certs| && io.second == Up
    ensures
      var s := Run(Start(owner), es);
      var t, c := s.db, R.Mine(s.chain, io.between);
      var cert, slot := t.certs[id], Newest(t.txs, StoreOf(id));
      && slot.Some? && cert.university < |t.unis| && t.unis[cert.university].wallet.Some?
      && (I.Confirm(t, user, id, txHash, Answer(Some(receipt)), SecondRecord(s, id, io)).1 == Ok(I.NowConfirmed) <==>
            && cert.university == user.university && I.Confirmable(cert) && receipt.status != 0
            && OnChain(c, cert) && c.records[cert.uid].issuer == Lower(t.unis[cert.university].wallet.value)
            && Recordable(t.txs, slot.value, txHash, receipt))
  {
    StartOk(owner);
    RunKeeps(Start(owner), es);
    var s := Run(Start(owner), es);
    assert CertOk(s.db.certs[id], StoreStatus(s.db.txs, id), s.chain);
    ConfirmFrom(s.db, R.Mine(s.chain, io.between), user, id, txHash, receipt, io.mask,
                Newest(s.db.txs, StoreOf(id)).value);
  }

  lemma RevokeFrom(t: Tables, c: R.Chain, user: Staff, id: nat, txHash: string, receipt: Receipt, mask: seq<bool>,
                   now: nat)
    requires id < |t.certs|
    ensures
      var cert, slot := t.certs[id], Newest(t.txs, OpenRevokeOf(id));
      V.ConfirmRevoke(t, user, id, txHash, Answer(Some(receipt)), Answer(GetRecord(c, cert.uid, mask)),
                      now).1 == Ok(V.NowRevoked) <==>
        && cert.university == user.university && cert.isActive && receipt.status != 0
        && RevokedThere(c, cert)
        && (slot.Some? ==> Recordable(t.txs, slot.value, txHash, receipt))
  {
    var cert, slot := t.certs[id], Newest(t.txs, OpenRevokeOf(id));
    RecordSays(c, cert, mask, "");
    if cert.uid in c.records && slot.Some? {
      var at := RevokedTime(GetRecord(c, cert.uid, mask).value, now);
      WriteMined(t.txs, slot.value, txHash, receipt, at);
      RecordableIs(t.txs, slot.value, txHash, receipt, at);
    }
  }

  /**
   * A revocation whose reads are answered succeeds exactly when the certificate is the caller's and
   * active, the receipt is a success, the registry says revoked, and the receipt can be recorded on the
   * open revoke row, if there is one. Neither CONFIRMED nor an initiation is asked for.
   */
  lemma RevokeOutcome(s: System, user: Staff, id: nat, txHash: string, receipt: Receipt, io: Reads, now: nat)
    requires id < |s.db.certs| && io.second == Up
    ensures
      var c, cert := R.Mine(s.chain, io.between), s.db.certs[id];
      var slot := Newest(s.db.txs, OpenRevokeOf(id));
      V.ConfirmRevoke(s.db, user, id, txHash, Answer(Some(receipt)), SecondRecord(s, id, io),
                      now).1 == Ok(V.NowRevoked) <==>
        && cert.university == user.university && cert.isActive && receipt.status != 0
        && RevokedThere(c, cert)
        && (slot.Some? ==> Recordable(s.db.txs, slot.value, txHash, receipt))
  {
    RevokeFrom(s.db, R.Mine(s.chain, io.between), user, id, txHash, receipt, io.mask, now);
  }

  /** The moment the registry recorded the revocation. */
  function RevokedAtOnChain(c: R.Chain, cert: Certificate): nat
    requires cert.uid in c.records
  {
    c.records[cert.uid].revokedAt
  }

  /** The rows of a successful revocation, given the time `at` of the registry's record. */
  ghost predicate RevokedRows(t: Tables, t': Tables, user: Staff, id: nat, txHash: string, receipt: Receipt, at: nat,
                              now: nat) {
    && id < |t.certs| && |t'.certs| == |t.certs|
    && t'.certs[id].status.Revoked? && t'.certs[id].revokedBy == Some(user.id) && t'.certs[id].revokedAt == Some(now)
    && (forall k :: 0 <= k < |t.certs| && k != id ==> t'.certs[k] == t.certs[k])
    && t' == t.(certs := t'.certs, txs := t'.txs)
    && match Newest(t.txs, OpenRevokeOf(id))
       case None => t'.txs == t.txs
       case Some(i) =>
         && |t'.txs| == |t.txs| && t'.txs[i] == MinedRow(t.txs[i], txHash, receipt, at)
         && forall j :: 0 <= j < |t.txs| && j != i ==> t'.txs[j] == t.txs[j]
  }

  lemma RevokedRowsFrom(t: Tables, t': Tables, user: Staff, id: nat, txHash: string, receipt: Receipt,
                        rec: ChainRecord, now: nat)
    requires RevokeCases(t, t', Ok(V.NowRevoked), user, id, txHash, Answer(Some(receipt)), Answer(Some(rec)), now)
    ensures RevokedRows(t, t', user, id, txHash, receipt, RevokedTime(rec, now), now)
  {
  }

  /**
   * What a successful revocation writes: who and when on the certificate, and on the open row the
   * receipt with the time at which the registry recorded the revocation. Nothing else changes.
   */
  lemma RevocationWrites(s: System, user: Staff, id: nat, txHash: string, receipt: Receipt, io: Reads, now: nat)
    requires R.Consistent(s.chain) && id < |s.db.certs| && io.second == Up
    requires V.ConfirmRevoke(s.db, user, id, txHash, Answer(Some(receipt)), SecondRecord(s, id, io),
                             now).1 == Ok(V.NowRevoked)
    ensures
      var c, cert := R.Mine(s.chain, io.between), s.db.certs[id];
      var t' := V.ConfirmRevoke(s.db, user, id, txHash, Answer(Some(receipt)), SecondRecord(s, id, io), now).0;
      && cert.uid in c.records
      && RevokedRows(s.db, t', user, id, txHash, receipt, RevokedAtOnChain(c, cert), now)
  {
    var c, cert := R.Mine(s.chain, io.between), s.db.certs[id];
    R.MineKeepsLedger(s.chain, io.between);
    RecordSays(c, cert, io.mask, "");
    RevokeShape(s.db, user, id, txHash, Answer(Some(receipt)), SecondRecord(s, id, io), now);
    var t' := V.ConfirmRevoke(s.db, user, id, txHash, Answer(Some(receipt)), SecondRecord(s, id, io), now).0;
    RevokedRowsFrom(s.db, t', user, id, txHash, receipt, GetRecord(c, cert.uid, io.mask).value, now);
  }

  /** The wallet of the university that issued certificate `id`, as the chain writes it. */
  function Issuer(t: Tables, id: nat): string
    requires id < |t.certs| && t.certs[id].university < |t.unis| && t.unis[t.certs[id].university].wallet.Some?
  {
    Lower(t.unis[t.certs[id].university].wallet.value)
  }

  /** The transaction with which that university stores the certificate's digest. */
  function StoreOp(t: Tables, id: nat, now: R.Timestamp): R.Op
    requires id < |t.certs| && t.certs[id].university < |t.unis| && t.unis[t.certs[id].university].wallet.Some?
  {
    LowerWalletIsAddress(t.unis[t.certs[id].university].wallet.value);
    R.Op(Issuer(t, id), now, R.StoreCertificate(t.certs[id].uid, HashToBytes32(t.certs[id].hash)))
  }

  /** Certificate `id` is unconfirmed, its university is authorised, and its UID is not on the chain. */
  ghost predicate Storable(s: System, id: nat) {
    && id < |s.db.certs| && I.Confirmable(s.db.certs[id])
    && s.db.certs[id].uid !in s.chain.records && HashToBytes32(s.db.certs[id].hash) != ZeroHash()
    && s.db.certs[id].university < |s.db.unis| && s.db.unis[s.db.certs[id].university].wallet.Some?
    && Issuer(s.db, id) in s.chain.issuers
  }

  ghost predicate Unused(txs: seq<TxRow>, txHash: string) {
    IsTxHash(txHash) && forall j :: 0 <= j < |txs| ==> txs[j].txHash != Some(txHash)
  }

  /** The confirmation of certificate `id` by its university, its store transaction mined between the two reads. */
  function StoreAndConfirm(s: System, id: nat, now: R.Timestamp, txHash: string, receipt: Receipt, staff: nat): Event
    requires Storable(s, id)
  {
    Confirm(Staff(staff, s.db.certs[id].university), id, txHash, Answer(Some(receipt)),
            Reads(true, Up, [StoreOp(s.db, id, now)], Up, []))
  }

  /**
   * The protocol completes: from every reachable state with such a certificate, mining its store
   * transaction and confirming it, even with the transaction mined between the two reads, makes it
   * CONFIRMED.
   */
  lemma CanConfirm(owner: Address, es: seq<Event>, id: nat, now: R.Timestamp, txHash: string, receipt: Receipt,
                   staff: nat)
    requires Storable(Run(Start(owner), es), id) && Unused(Run(Start(owner), es).db.txs, txHash)
    requires receipt.status != 0 && InRange(receipt)
    ensures
      var s := Run(Start(owner), es);
      IsConfirmed(Step(s, StoreAndConfirm(s, id, now, txHash, receipt, staff)), id)
  {
    StartOk(owner);
    RunKeeps(Start(owner), es);
    var s := Run(Start(owner), es);
    assert CertOk(s.db.certs[id], StoreStatus(s.db.txs, id), s.chain);
    CanConfirmFrom(s, id, now, txHash, receipt, staff);
  }

  lemma CanConfirmFrom(s: System, id: nat, now: R.Timestamp, txHash: string, receipt: Receipt, staff: nat)
    requires IssuersOk(s.db) && Newest(s.db.txs, StoreOf(id)).Some?
    requires Storable(s, id) && Unused(s.db.txs, txHash) && receipt.status != 0 && InRange(receipt)
    ensures IsConfirmed(Step(s, StoreAndConfirm(s, id, now, txHash, receipt, staff)), id)
  {
    var op := StoreOp(s.db, id, now);
    var user := Staff(staff, s.db.certs[id].university);
    Stored(s.chain, op, s.db.certs[id]);
    ConfirmFrom(s.db, R.Mine(s.chain, [op]), user, id, txHash, receipt, [], Newest(s.db.txs, StoreOf(id)).value);
    ConfirmWrites(s, user, id, txHash, Answer(Some(receipt)), Reads(true, Up, [op], Up, []));
  }

  lemma ConfirmWrites(s: System, user: Staff, id: nat, txHash: string, receipt: Rpc<Option<Receipt>>, io: Reads)
    requires I.Confirm(s.db, user, id, txHash, receipt, SecondRecord(s, id, io)).1 == Ok(I.NowConfirmed)
    ensures IsConfirmed(Step(s, Confirm(user, id, txHash, receipt, io)), id)
  {
    ConfirmShape(s.db, user, id, txHash, receipt, SecondRecord(s, id, io));
  }

  lemma Stored(c: R.Chain, op: R.Op, cert: Certificate)
    requires op.call == R.StoreCertificate(cert.uid, HashToBytes32(cert.hash)) && op.sender in c.issuers
    requires cert.uid !in c.records && HashToBytes32(cert.hash) != ZeroHash()
    ensures OnChain(R.Mine(c, [op]), cert) && R.Mine(c, [op]).records[cert.uid].issuer == op.sender
  {
    assert [op][1..] == [];
    R.AsciiBytes(cert.uid);
    assert R.Mine(c, [op]) == R.Mine(R.Apply(c, op), []) == R.Apply(c, op);
    HashBytesBijection(cert.hash, cert.hash, HashToBytes32(cert.hash));
  }

  // ----- A run that confirms a certificate -----

  function Repeat(c: char, n: nat): (s: string)
    ensures |s| == n && forall i :: 0 <= i < n ==> s[i] == c
  {
    seq(n, i => c)
  }

  /** An address that is neither the owner's nor zero. */
  function SomeWallet(owner: Address): (w: Address)
    ensures w != owner && w != ZeroAddress() && IsWallet(w) && Lower(w) == w
  {
    var one, two := "0x" + Repeat('1', 40), "0x" + Repeat('2', 40);
    assert one[2] == '1' && two[2] == '2';
    assert Lower(one) == one && Lower(two) == two;
    if owner == one then two else one
  }

  function Setup(owner: Address): seq<Event> {
    var wallet := SomeWallet(owner);
    [Register("AB"), VerifyUni(0), SetWallet(Staff(0, 0), 0, wallet),
     Mined(R.Op(owner, 1, R.AuthorizeIssuer(wallet)))]
  }

  /** One verified university with an authorised wallet. */
  function Ready(owner: Address): System {
    var wallet := SomeWallet(owner);
    System(Tables([UniversityRow("AB", Some(wallet), true)], [], [], [], []), R.Deploy(owner).(issuers := {wallet}))
  }

  lemma Founded(s0: System, s1: System, s2: System)
    requires s0.db == Tables([], [], [], [], [])
    requires s1 == s0.(db := s0.db.(unis := [UniversityRow("AB", None, false)]))
    requires s2 == s0.(db := s0.db.(unis := [UniversityRow("AB", None, true)]))
    ensures Step(s0, Register("AB")) == s1 && Step(s1, VerifyUni(0)) == s2
  {
    assert Upper("AB") == "AB";
    assert s1.db.unis[0 := UniversityRow("AB", None, true)] == s2.db.unis;
  }

  lemma Equipped(owner: Address, s2: System, s3: System)
    requires s2 == System(Ready(owner).db.(unis := [UniversityRow("AB", None, true)]), R.Deploy(owner))
    requires s3 == System(Ready(owner).db, R.Deploy(owner))
    ensures Step(s2, SetWallet(Staff(0, 0), 0, SomeWallet(owner))) == s3
    ensures Step(s3, Mined(R.Op(owner, 1, R.AuthorizeIssuer(SomeWallet(owner))))) == Ready(owner)
  {
    assert s2.db.unis[0 := Ready(owner).db.unis[0]] == s3.db.unis;
    assert {} + {SomeWallet(owner)} == {SomeWallet(owner)};
  }

  lemma RunOne(s: System, es: seq<Event>, e: Event)
    ensures Run(s, es + [e]) == Step(Run(s, es), e)
  {
    assert (es + [e])[..|es|] == es;
  }

  lemma TwoMore(es: seq<Event>, a: Event, b: Event)
    ensures es + [a, b] == es + [a] + [b]
  {
  }

  lemma RunTwo(s: System, es: seq<Event>, a: Event, b: Event)
    ensures Run(s, es + [a, b]) == Step(Step(Run(s, es), a), b)
  {
    RunOne(s, es, a);
    RunOne(s, es + [a], b);
    TwoMore(es, a, b);
  }

  lemma RunFour(s: System, a: Event, b: Event, c: Event, d: Event)
    ensures Run(s, [a, b] + [c, d]) == Step(Step(Step(Step(s, a), b), c), d)
  {
    RunTwo(s, [], a, b);
    RunTwo(s, [a, b], c, d);
    assert [] + [a, b] == [a, b];
  }

  lemma SetupLeads(owner: Address)
    ensures Run(Start(owner), Setup(owner)) == Ready(owner)
  {
    var es, s0 := Setup(owner), Start(owner);
    var u0: University, u1: University := UniversityRow("AB", None, false), UniversityRow("AB", None, true);
    var s2 := System(s0.db.(unis := [u1]), s0.chain);
    Founded(s0, System(s0.db.(unis := [u0]), s0.chain), s2);
    Equipped(owner, s2, System(Ready(owner).db, s0.chain));
    RunFour(s0, es[0], es[1], es[2], es[3]);
    assert es == [es[0], es[1]] + [es[2], es[3]];
  }

  lemma UploadWrites(t: Tables, user: Staff, year: nat, digest: Hash)
    requires t.certs == [] && t.txs == [] && I.Upload(t, user, true, year, digest).1.Ok?
    ensures
      var t' := I.Upload(t, user, true, year, digest).0;
      && t'.unis == t.unis && |t'.certs| == 1 && t'.certs[0].status.Pending?
      && t'.certs[0].hash == digest && t'.certs[0].university == user.university
      && |t'.txs| == 1 && t'.txs[0].txHash.None?
  {
  }

  lemma FirstUploadSucceeds(t: Tables, digest: Hash)
    requires t.certs == [] && |t.unis| == 1 && t.unis[0].isVerified && t.unis[0].wallet.Some?
    requires t.unis[0].shortCode == "AB"
    ensures I.Upload(t, Staff(0, 0), true, 2025, digest).1.Ok?
  {
    StartOk(ZeroAddress());
    UploadFrom(t, Staff(0, 0), 2025, digest);
  }

  lemma UploadStep(s: System, user: Staff, digest: Hash)
    ensures Step(s, Upload(user, true, 2025, digest)) == System(I.Upload(s.db, user, true, 2025, digest).0, s.chain)
  {
  }

  /** The first certificate of that university. */
  lemma FirstUpload(owner: Address, digest: Hash)
    requires HashToBytes32(digest) != ZeroHash()
    ensures
      var s := Step(Ready(owner), Upload(Staff(0, 0), true, 2025, digest));
      Storable(s, 0) && forall j :: 0 <= j < |s.db.txs| ==> s.db.txs[j].txHash.None?
  {
    UploadStep(Ready(owner), Staff(0, 0), digest);
    FirstUploadSucceeds(Ready(owner).db, digest);
    UploadWrites(Ready(owner).db, Staff(0, 0), 2025, digest);
    IsReady(owner, I.Upload(Ready(owner).db, Staff(0, 0), true, 2025, digest).0);
  }

  lemma IsReady(owner: Address, t: Tables)
    requires t.unis == Ready(owner).db.unis
    requires |t.certs| == 1 && t.certs[0].status.Pending? && t.certs[0].university == 0
    requires HashToBytes32(t.certs[0].hash) != ZeroHash()
    ensures Storable(System(t, Ready(owner).chain), 0)
  {
  }

  lemma ReachesConfirmed(owner: Address, es: seq<Event>, txHash: string, receipt: Receipt)
    requires Storable(Run(Start(owner), es), 0) && Unused(Run(Start(owner), es).db.txs, txHash)
    requires receipt.status != 0 && InRange(receipt)
    ensures exists all :: IsConfirmed(Run(Start(owner), all), 0)
  {
    var e := StoreAndConfirm(Run(Start(owner), es), 0, 1, txHash, receipt, 0);
    CanConfirm(owner, es, 0, 1, txHash, receipt, 0);
    RunOne(Start(owner), es, e);
    assert IsConfirmed(Run(Start(owner), es + [e]), 0);
  }

  /** Whoever deploys the registry: some run confirms a certificate, so the results about CONFIRMED are not empty. */
  lemma ConfirmedIsReachable(owner: Address)
    ensures exists es :: IsConfirmed(Run(Start(owner), es), 0)
  {
    var bytes: Bytes32 := seq(32, i => 1);
    var digest := Bytes32ToHash(bytes);
    HashBytesBijection(digest, digest, bytes);
    assert bytes[0] != ZeroHash()[0];
    var upload := Upload(Staff(0, 0), true, 2025, digest);
    SetupLeads(owner);
    FirstUpload(owner, digest);
    RunOne(Start(owner), Setup(owner), upload);
    ReachesConfirmed(owner, Setup(owner) + [upload], "0x" + Repeat('1', 64), Receipt(1, 1, "0x", 1, 1));
  }
}
