// The on-chain ledger: blockchain/contracts/CertificateRegistry.sol. It belongs to the
// environment of the backend, so it is a value and a transition function; a reverted
// transaction leaves it unchanged.
module Registry {
  import opened Basics
  import opened HashCodec

  /** Block timestamps; zero is what an empty storage slot holds, so no block has it. */
  type Timestamp = t: int | t > 0 witness 1

  const MAX_UID_LENGTH: nat := 50

  /** The UTF-8 bytes of one character. */
  function Utf8Width(c: char): nat {
    if c as int < 0x80 then 1 else if c as int < 0x800 then 2 else if c as int < 0x1_0000 then 3 else 4
  }

  /** The length of a Solidity string is counted in bytes. */
  function ByteLength(s: string): nat {
    if s == "" then 0 else ByteLength(s[..|s| - 1]) + Utf8Width(s[|s| - 1])
  }

  lemma {:induction false} AsciiBytes(s: string)
    requires forall i :: 0 <= i < |s| ==> s[i] as int < 0x80
    ensures ByteLength(s) == |s|
  {
    if s == "" {
    } else {
      AsciiBytes(s[..|s| - 1]);
    }
  }

  datatype Record = Record(hash: Bytes32, issuer: Address, revoked: bool, issuedAt: Timestamp, revokedAt: nat)

  datatype Chain = Chain(
    owner: Address,
    issuers: set<Address>,
    records: map<string, Record>,  // a uid outside the map is a zero struct: exists == false
    totalCertificates: nat,
    totalRevocations: nat)

  datatype Call =
    | AuthorizeIssuer(issuer: Address)
    | DeauthorizeIssuer(issuer: Address)
    | TransferOwnership(newOwner: Address)
    | StoreCertificate(uid: string, hash: Bytes32)
    | RevokeCertificate(uid: string)

  datatype Op = Op(sender: Address, now: Timestamp, call: Call)

  datatype Revert =
    | NotContractOwner | CannotAuthorizeZeroAddress | CannotAuthorizeOwner | IssuerAlreadyAuthorized
    | IssuerNotAuthorized | CannotTransferToZeroAddress | AlreadyOwner | NotAuthorizedIssuer
    | InvalidCertificateUid | InvalidCertificateHash | CertificateAlreadyExists
    | CertificateNotFound | CertificateAlreadyRevoked | NotOriginalIssuer

  function Execute(c: Chain, op: Op): Result<Chain, Revert> {
    match op.call
    case AuthorizeIssuer(issuer) =>
      if op.sender != c.owner then Failure(NotContractOwner)
      else if issuer == ZeroAddress() then Failure(CannotAuthorizeZeroAddress)
      else if issuer == c.owner then Failure(CannotAuthorizeOwner)
      else if issuer in c.issuers then Failure(IssuerAlreadyAuthorized)
      else Success(c.(issuers := c.issuers + {issuer}))
    case DeauthorizeIssuer(issuer) =>
      if op.sender != c.owner then Failure(NotContractOwner)
      else if issuer !in c.issuers then Failure(IssuerNotAuthorized)
      else Success(c.(issuers := c.issuers - {issuer}))
    case TransferOwnership(newOwner) =>
      if op.sender != c.owner then Failure(NotContractOwner)
      else if newOwner == ZeroAddress() then Failure(CannotTransferToZeroAddress)
      else if newOwner == c.owner then Failure(AlreadyOwner)
      else Success(c.(owner := newOwner))
    case StoreCertificate(uid, hash) =>
      if op.sender !in c.issuers then Failure(NotAuthorizedIssuer)
      else if ByteLength(uid) == 0 || ByteLength(uid) > MAX_UID_LENGTH then Failure(InvalidCertificateUid)
      else if hash == ZeroHash() then Failure(InvalidCertificateHash)
      else if uid in c.records then Failure(CertificateAlreadyExists)
      else Success(c.(records := c.records[uid := Record(hash, op.sender, false, op.now, 0)],
                      totalCertificates := c.totalCertificates + 1))
    case RevokeCertificate(uid) =>
      if op.sender !in c.issuers then Failure(NotAuthorizedIssuer)
      else if uid !in c.records then Failure(CertificateNotFound)
      else if c.records[uid].revoked then Failure(CertificateAlreadyRevoked)
      else if c.records[uid].issuer != op.sender then Failure(NotOriginalIssuer)
      else Success(c.(records := c.records[uid := c.records[uid].(revoked := true, revokedAt := op.now)],
                      totalRevocations := c.totalRevocations + 1))
  }

  function Apply(c: Chain, op: Op): Chain {
    match Execute(c, op)
    case Success(c') => c'
    case Failure(_) => c
  }

  /** Any number of transactions, by anyone, mined in order. */
  function Mine(c: Chain, ops: seq<Op>): Chain
    decreases |ops|
  {
    if ops == [] then c else Mine(Apply(c, ops[0]), ops[1..])
  }

  function Deploy(owner: Address): Chain {
    Chain(owner, {}, map[], 0, 0)
  }

  /** verifyCertificate: (isValid, status), status 0 for ACTIVE and 1 for REVOKED. */
  function VerifyCertificate(c: Chain, uid: string, submitted: Bytes32): (bool, nat) {
    if uid !in c.records then (false, 0)
    else if c.records[uid].revoked then (false, 1)
    else (c.records[uid].hash == submitted, 0)
  }

  /** getCertificateRecord: a copy of the struct, all zero for an unknown uid. */
  datatype RecordView = RecordView(
    hash: Bytes32, issuer: Address, status: nat, recorded: bool, issuedAt: nat, revokedAt: nat)

  function GetCertificateRecord(c: Chain, uid: string): RecordView {
    if uid !in c.records then RecordView(ZeroHash(), ZeroAddress(), 0, false, 0, 0)
    else var r := c.records[uid];
         RecordView(r.hash, r.issuer, if r.revoked then 1 else 0, true, r.issuedAt, r.revokedAt)
  }

  // ----- What the ledger promises -----

  ghost function RevokedUids(c: Chain): set<string> {
    set uid | uid in c.records && c.records[uid].revoked
  }

  /** The two counters count, and a revocation time is recorded exactly for revoked records. */
  ghost predicate Consistent(c: Chain) {
    && c.totalCertificates == |c.records|
    && c.totalRevocations == |RevokedUids(c)|
    && forall uid :: uid in c.records ==> (c.records[uid].revokedAt > 0 <==> c.records[uid].revoked)
  }

  /** What no transaction can undo. */
  ghost predicate Extends(c: Chain, d: Chain) {
    forall uid :: uid in c.records ==>
      && uid in d.records
      && d.records[uid].hash == c.records[uid].hash
      && d.records[uid].issuer == c.records[uid].issuer
      && d.records[uid].issuedAt == c.records[uid].issuedAt
      && (c.records[uid].revoked ==> d.records[uid] == c.records[uid])
  }

  lemma AddedKey(m: map<string, Record>, uid: string, r: Record)
    requires uid !in m
    ensures |m[uid := r]| == |m| + 1
  {
    assert m[uid := r].Keys == m.Keys + {uid};
  }

  lemma StoreKeepsCounts(c: Chain, d: Chain, uid: string, r: Record)
    requires Consistent(c) && uid !in c.records && !r.revoked && r.revokedAt == 0
    requires d == c.(records := c.records[uid := r], totalCertificates := c.totalCertificates + 1)
    ensures Consistent(d)
  {
    AddedKey(c.records, uid, r);
    assert RevokedUids(d) == RevokedUids(c);
  }

  lemma ReplacedKey(m: map<string, Record>, uid: string, r: Record)
    requires uid in m
    ensures |m[uid := r]| == |m|
  {
    assert m[uid := r].Keys == m.Keys;
  }

  lemma OneMoreRevoked(c: Chain, d: Chain, uid: string, now: Timestamp)
    requires uid in c.records && !c.records[uid].revoked
    requires d.records == c.records[uid := c.records[uid].(revoked := true, revokedAt := now)]
    ensures |RevokedUids(d)| == |RevokedUids(c)| + 1
  {
    assert uid !in RevokedUids(c);
    assert RevokedUids(d) == RevokedUids(c) + {uid};
  }

  lemma RevokeKeepsCounts(c: Chain, d: Chain, uid: string, now: Timestamp)
    requires Consistent(c) && uid in c.records && !c.records[uid].revoked
    requires d == c.(records := c.records[uid := c.records[uid].(revoked := true, revokedAt := now)],
                     totalRevocations := c.totalRevocations + 1)
    ensures Consistent(d)
  {
    ReplacedKey(c.records, uid, c.records[uid].(revoked := true, revokedAt := now));
    OneMoreRevoked(c, d, uid, now);
  }

  lemma ApplyConsistent(c: Chain, op: Op)
    requires Consistent(c)
    ensures Consistent(Apply(c, op))
  {
    if Execute(c, op).Success? {
      var d := Apply(c, op);
      match op.call
      case StoreCertificate(uid, hash) => StoreKeepsCounts(c, d, uid, Record(hash, op.sender, false, op.now, 0));
      case RevokeCertificate(uid) => RevokeKeepsCounts(c, d, uid, op.now);
      case _ => assert RevokedUids(d) == RevokedUids(c);
    }
  }

  lemma StoreExtends(c: Chain, d: Chain, uid: string, r: Record)
    requires uid !in c.records && d.records == c.records[uid := r]
    ensures Extends(c, d)
  {
  }

  lemma RevokeExtends(c: Chain, d: Chain, uid: string, now: Timestamp)
    requires uid in c.records && !c.records[uid].revoked
    requires d.records == c.records[uid := c.records[uid].(revoked := true, revokedAt := now)]
    ensures Extends(c, d)
  {
  }

  lemma ApplyExtends(c: Chain, op: Op)
    ensures Extends(c, Apply(c, op))
  {
    if Execute(c, op).Success? {
      var d := Apply(c, op);
      match op.call
      case StoreCertificate(uid, hash) => StoreExtends(c, d, uid, Record(hash, op.sender, false, op.now, 0));
      case RevokeCertificate(uid) => RevokeExtends(c, d, uid, op.now);
      case _ => assert d.records == c.records;
    }
  }

  lemma ApplyKeepsLedger(c: Chain, op: Op)
    requires Consistent(c)
    ensures Consistent(Apply(c, op)) && Extends(c, Apply(c, op))
  {
    ApplyConsistent(c, op);
    ApplyExtends(c, op);
  }

  /** Over every run of the contract the counters agree with the records and nothing recorded is lost. */
  lemma {:induction false} MineKeepsLedger(c: Chain, ops: seq<Op>)
    requires Consistent(c)
    ensures Consistent(Mine(c, ops)) && Extends(c, Mine(c, ops))
    decreases |ops|
  {
    if ops == [] {
    } else {
      ApplyKeepsLedger(c, ops[0]);
      MineKeepsLedger(Apply(c, ops[0]), ops[1..]);
    }
  }

  /**
   * A revocation is accepted only from the original, still authorised issuer, and once. Whatever is
   * mined after it, a second one is refused and the contract answers (false, REVOKED) for any hash.
   */
  lemma RevokeOnce(c: Chain, op: Op, later: seq<Op>, again: Op, hash: Bytes32)
    requires Consistent(c)
    requires op.call.RevokeCertificate? && again.call == op.call
    requires Execute(c, op).Success?
    ensures op.sender in c.issuers && op.call.uid in c.records && c.records[op.call.uid].issuer == op.sender
    ensures Execute(Mine(Apply(c, op), later), again).Failure?
    ensures VerifyCertificate(Mine(Apply(c, op), later), op.call.uid, hash) == (false, 1)
  {
    ApplyKeepsLedger(c, op);
    MineKeepsLedger(Apply(c, op), later);
  }

  // ----- What each transaction does, as its readers see it -----

  /** No reader sees a difference at any other uid, and nobody gains or loses a right. */
  ghost predicate OnlyRecord(c: Chain, d: Chain, uid: string) {
    && d.owner == c.owner && d.issuers == c.issuers
    && (forall other, h :: other != uid ==> VerifyCertificate(d, other, h) == VerifyCertificate(c, other, h))
    && (forall other :: other != uid ==> GetCertificateRecord(d, other) == GetCertificateRecord(c, other))
  }

  /**
   * A certificate is stored if and only if the sender is an authorised issuer, the uid has 1 to 50 bytes
   * and is new, and the hash is not all zero. Then exactly that hash verifies, as ACTIVE.
   */
  lemma StoreOutcome(c: Chain, op: Op, submitted: Bytes32)
    requires op.call.StoreCertificate?
    ensures
      var d, uid, hash := Apply(c, op), op.call.uid, op.call.hash;
      if && op.sender in c.issuers && 1 <= ByteLength(uid) <= 50 && uid !in c.records
         && (exists i :: 0 <= i < 32 && hash[i] != 0) then
        && Execute(c, op).Success? && OnlyRecord(c, d, uid)
        && VerifyCertificate(d, uid, submitted) == (submitted == hash, 0)
        && GetCertificateRecord(d, uid) == RecordView(hash, op.sender, 0, true, op.now, 0)
      else Execute(c, op).Failure? && d == c
  {
    assert op.call.hash == ZeroHash() || exists i :: 0 <= i < 32 && op.call.hash[i] != ZeroHash()[i];
  }

  /**
   * A certificate is revoked if and only if the sender is an authorised issuer and stored it, and it is not
   * revoked yet. Then no hash verifies, and the record says REVOKED and when, and is otherwise as it was.
   */
  lemma RevokeOutcome(c: Chain, op: Op, submitted: Bytes32)
    requires op.call.RevokeCertificate?
    ensures
      var d, uid := Apply(c, op), op.call.uid;
      if op.sender in c.issuers && uid in c.records && !c.records[uid].revoked && c.records[uid].issuer == op.sender
      then
        && Execute(c, op).Success? && OnlyRecord(c, d, uid)
        && VerifyCertificate(d, uid, submitted) == (false, 1)
        && GetCertificateRecord(d, uid) ==
             RecordView(c.records[uid].hash, op.sender, 1, true, c.records[uid].issuedAt, op.now)
      else Execute(c, op).Failure? && d == c
  {
  }

  /** Only the owner gives and takes the right to issue, never to itself, and hands the contract over. */
  lemma RightsOutcome(c: Chain, op: Op)
    requires op.call.AuthorizeIssuer? || op.call.DeauthorizeIssuer? || op.call.TransferOwnership?
    ensures
      var d := Apply(c, op);
      && d.records == c.records
      && (forall a :: a in d.issuers && a !in c.issuers <==>
            && op.sender == c.owner && op.call == AuthorizeIssuer(a)
            && a !in c.issuers && a != c.owner && a != ZeroAddress())
      && (forall a :: a in c.issuers && a !in d.issuers <==>
            op.sender == c.owner && op.call == DeauthorizeIssuer(a) && a in c.issuers)
      && d.owner == (if op.sender == c.owner && op.call.TransferOwnership? && op.call.newOwner != ZeroAddress()
                     then op.call.newOwner else c.owner)
  {
  }

  /** The `i`-th transaction stored this record, by an issuer authorised at that moment. */
  ghost predicate StoredBy(c: Chain, ops: seq<Op>, i: nat, uid: string, r: Record) {
    && i < |ops| && ops[i].call == StoreCertificate(uid, r.hash) && ops[i].sender == r.issuer
    && ops[i].now == r.issuedAt && r.issuer in Mine(c, ops[..i]).issuers
  }

  ghost predicate SameOrigin(r: Record, q: Record) {
    r.hash == q.hash && r.issuer == q.issuer && r.issuedAt == q.issuedAt
  }

  lemma ApplyOrigin(c: Chain, op: Op, uid: string)
    requires uid in Apply(c, op).records
    ensures
      var r := Apply(c, op).records[uid];
      || (uid in c.records && SameOrigin(c.records[uid], r))
      || (op.call == StoreCertificate(uid, r.hash) && op.sender == r.issuer && op.now == r.issuedAt
          && r.issuer in c.issuers)
  {
  }

  lemma {:induction false} MineOrigin(c: Chain, ops: seq<Op>, uid: string)
    requires uid in Mine(c, ops).records
    ensures
      var r := Mine(c, ops).records[uid];
      || (uid in c.records && SameOrigin(c.records[uid], r))
      || exists i: nat :: StoredBy(c, ops, i, uid, r)
    decreases |ops|
  {
    if ops != [] {
      var d, r := Apply(c, ops[0]), Mine(c, ops).records[uid];
      MineOrigin(d, ops[1..], uid);
      if uid in d.records && SameOrigin(d.records[uid], r) {
        ApplyOrigin(c, ops[0], uid);
        assert ops[..0] == [];
        assert !(uid in c.records && SameOrigin(c.records[uid], r)) ==> StoredBy(c, ops, 0, uid, r);
      } else {
        var i: nat :| StoredBy(d, ops[1..], i, uid, r);
        assert ops[..i + 1][1..] == ops[1..][..i];
        assert StoredBy(c, ops, i + 1, uid, r);
      }
    }
  }

  /** Every record of a deployed contract was stored by a transaction of an issuer authorised at that moment. */
  lemma RecordsAreStored(owner: Address, ops: seq<Op>, uid: string)
    requires uid in Mine(Deploy(owner), ops).records
    ensures exists i: nat :: StoredBy(Deploy(owner), ops, i, uid, Mine(Deploy(owner), ops).records[uid])
  {
    MineOrigin(Deploy(owner), ops, uid);
  }
}
