// The read-only client of the registry: public methods of backend/blockchain/blockchain_service.py.
// Retrying and the circuit breaker are in RpcGuard; what is left of them here is that any read may
// end in one of the errors of `Rpc`.
module ChainReader {
  import opened Basics
  import opened HashCodec
  import R = Registry

  datatype Rpc<+T> =
    | Answer(value: T)
    | Unreachable     // BlockchainConnectionError or BlockchainTimeoutError
    | ContractFault   // BlockchainContractError, which no service catches

  /** How one read of a call fares. */
  datatype Link = Up | Down | Faulty

  datatype ChainStatus = Active | RevokedOnChain | Unknown(code: nat)

  function StatusOf(code: nat): ChainStatus {
    if code == 0 then Active else if code == 1 then RevokedOnChain else Unknown(code)
  }

  datatype ChainCheck = ChainCheck(isValid: bool, status: ChainStatus)

  datatype ChainRecord = ChainRecord(
    hash: string, issuer: string, issuedAt: nat, revokedAt: Option<nat>, status: ChainStatus)

  datatype Receipt = Receipt(status: nat, blockNumber: nat, blockHash: HexText, gasUsed: nat, gasPrice: nat)

  function Ask<T>(link: Link, value: T): Rpc<T> {
    match link
    case Up => Answer(value)
    case Down => Unreachable
    case Faulty => ContractFault
  }

  /** verify_certificate */
  function Verify(c: R.Chain, uid: string, submitted: Hash): ChainCheck {
    var (valid, code) := R.VerifyCertificate(c, uid, HashToBytes32(submitted));
    ChainCheck(valid, StatusOf(code))
  }

  /** get_certificate_record; `mask` is the letter case the address checksum happens to need. */
  function GetRecord(c: R.Chain, uid: string, mask: seq<bool>): Option<ChainRecord> {
    var v := R.GetCertificateRecord(c, uid);
    if !v.recorded then None
    else Some(ChainRecord(Bytes32ToHash(v.hash), Recase(v.issuer, mask), v.issuedAt,
                          if v.revokedAt > 0 then Some(v.revokedAt) else None, StatusOf(v.status)))
  }

  /**
   * Both reads of one chain state tell the same story, and comparing digests as text, as the backend
   * does, is comparing them as bytes32, as the contract does.
   */
  lemma ReadsAgree(c: R.Chain, uid: string, submitted: Hash, mask: seq<bool>)
    requires R.Consistent(c)
    ensures Verify(c, uid, submitted).status ==
            (if GetRecord(c, uid, mask).Some? then GetRecord(c, uid, mask).value.status else Active)
    ensures Verify(c, uid, submitted).isValid <==>
            && GetRecord(c, uid, mask).Some?
            && GetRecord(c, uid, mask).value.status == Active
            && GetRecord(c, uid, mask).value.hash == submitted
    ensures GetRecord(c, uid, mask).Some? ==>
            && Lower(GetRecord(c, uid, mask).value.issuer) == c.records[uid].issuer
            && (GetRecord(c, uid, mask).value.revokedAt.Some? <==>
                  GetRecord(c, uid, mask).value.status == RevokedOnChain)
  {
    if uid in c.records {
      HashBytesBijection(submitted, submitted, c.records[uid].hash);
      LowerUndoesRecase(c.records[uid].issuer, mask);
    }
  }
}
