// The session and the repositories: the tables as mutable state, one database transaction at a time.
// `Begin` opens a transaction; a service that raises calls `Rollback`, one that returns just keeps
// its writes.
module Database {
  import opened Basics
  import opened HashCodec
  import opened Tables
  import opened UidAllocator

  class Session {
    var unis: seq<University>
    var certs: seq<Certificate>
    var txs: seq<TxRow>
    var qrs: seq<Qr>
    var logs: seq<LogRow>
    var saved: Tables

    constructor ()
      ensures Now() == Tables([], [], [], [], [])
    {
      unis, certs, txs, qrs, logs := [], [], [], [], [];
      saved := Tables([], [], [], [], []);
    }

    function Now(): Tables
      reads this
    {
      Tables(unis, certs, txs, qrs, logs)
    }

    method Begin()
      modifies this`saved
      ensures saved == Now()
    {
      saved := Now();
    }

    method Rollback()
      modifies this
      ensures Now() == saved == old(saved)
    {
      unis, certs, txs, qrs, logs := saved.unis, saved.certs, saved.txs, saved.qrs, saved.logs;
    }

    // ----- certificates -----

    method CreateCertificate(row: CertificateRow) returns (ok: bool)
      modifies this`certs
      ensures ok <==> CertificateChecks(row) && FindUid(old(certs), row.uid).None? && FindHash(old(certs),
                                                            row.hash).None?
      ensures certs == if ok then old(certs) + [row] else old(certs)
    {
      ok := CertificateChecks(row) && FindUid(certs, row.uid).None? && FindHash(certs, row.hash).None?;
      if ok {
        certs := certs + [row];
      }
    }

    method UpdateBlockchainStatus(id: nat, status: BlockchainStatus)
      requires id < |certs| && (certs[id].isActive || status.Revoked?)
      modifies this`certs
      ensures certs == old(certs)[id := old(certs)[id].(status := status)]
    {
      certs := certs[id := certs[id].(status := status)];
    }

    method Revoke(id: nat, reason: string, admin: nat, now: nat)
      requires id < |certs|
      modifies this`certs
      ensures certs == old(certs)[id := RevokedCert(old(certs)[id], reason, admin, now)]
    {
      var cert := certs[id].(isActive := false, revocationReason := Some(reason), revokedBy := Some(admin),
                             revokedAt := Some(now), status := Revoked);
      certs := certs[id := cert];
    }

    // ----- blockchain_transactions -----

    method CreateTransaction(row: TxData) returns (ok: bool)
      modifies this`txs
      ensures ok == TxAccepts(old(txs), |old(txs)|, row)
      ensures txs == if ok then old(txs) + [row] else old(txs)
    {
      ok := TxAccepts(txs, |txs|, row);
      if ok {
        txs := txs + [row];
      }
    }

    method GetByCertificateId(id: nat) returns (rows: seq<nat>)
      ensures rows == NewestFirst(txs, id)
    {
      rows := NewestFirst(txs, id);
    }

    method UpdateStatus(i: nat, status: TransactionStatus, data: seq<Assignment>) returns (ok: bool)
      requires i < |txs|
      modifies this`txs
      ensures ok <==> Write(old(txs), Some(i), status, data).Some?
      ensures txs == if ok then Write(old(txs), Some(i), status, data).value else old(txs)
    {
      var row: TxData := txs[i];
      row := row.(status := status);
      var k := 0;
      while k < |data|
        invariant k <= |data|
        invariant row == AssignAll(txs[i].(status := status), data[..k])
      {
        assert data[..k + 1][..k] == data[..k];
        row := Assign(row, data[k]);
        k := k + 1;
      }
      assert data[..k] == data;
      ok := TxAccepts(txs, i, row);
      if ok {
        txs := txs[i := row];
      }
    }

    // ----- qr_verifications -----

    method CreateQr(qr: Qr) returns (ok: bool)
      modifies this`qrs
      ensures ok == QrAccepts(old(qrs), qr)
      ensures qrs == if ok then old(qrs) + [qr] else old(qrs)
    {
      ok := QrAccepts(qrs, qr);
      if ok {
        qrs := qrs + [qr];
      }
    }

    method DeactivateQr(q: nat)
      requires q < |qrs|
      modifies this`qrs
      ensures qrs == old(qrs)[q := old(qrs)[q].(isActive := false)]
    {
      qrs := qrs[q := qrs[q].(isActive := false)];
    }

    method IncrementScanCount(q: nat)
      requires q < |qrs|
      modifies this`qrs
      ensures qrs == old(qrs)[q := old(qrs)[q].(scans := old(qrs)[q].scans + 1)]
    {
      qrs := qrs[q := qrs[q].(scans := qrs[q].scans + 1)];
    }

    // ----- verification_logs -----

    method CreateLog(row: LogRow) returns (ok: bool)
      modifies this`logs
      ensures ok == LogAccepts(row)
      ensures logs == if ok then old(logs) + [Stored(row)] else old(logs)
    {
      ok := LogAccepts(row);
      if ok {
        logs := logs + [Stored(row)];
      }
    }

    // ----- universities -----

    method CreateUniversity(row: UniversityRow) returns (ok: bool)
      modifies this`unis
      ensures ok == (Fits(row.shortCode, SHORT_CODE_WIDTH) && UniversityChecks(ClippedUni(row))
                     && !CodeTaken(old(unis), ClippedUni(row).shortCode))
      ensures unis == if ok then old(unis) + [ClippedUni(row)] else old(unis)
    {
      var stored := ClippedUni(row);
      ok := Fits(row.shortCode, SHORT_CODE_WIDTH) && UniversityChecks(stored) && !CodeTaken(unis, stored.shortCode);
      if ok {
        unis := unis + [stored];
      }
    }

    method SetVerified(u: nat)
      requires u < |unis|
      modifies this`unis
      ensures unis == old(unis)[u := old(unis)[u].(isVerified := true)]
    {
      unis := unis[u := unis[u].(isVerified := true)];
    }

    method UpdateWalletAddress(u: nat, wallet: string) returns (ok: bool)
      requires u < |unis|
      modifies this`unis
      ensures ok == IsWallet(wallet)
      ensures unis == if ok then old(unis)[u := old(unis)[u].(wallet := Some(wallet))] else old(unis)
    {
      ok := IsWallet(wallet);
      if ok {
        unis := unis[u := unis[u].(wallet := Some(wallet))];
      }
    }
  }

  /** The services' search through the rows of one certificate, newest first. */
  method FirstMatching(txs: seq<TxRow>, rows: seq<nat>, q: Query) returns (slot: Option<nat>)
    requires rows == NewestFirst(txs, q.certificate)
    ensures slot == Newest(txs, q)
  {
    FirstIsNewest(txs, q);
    var k := 0;
    while k < |rows|
      invariant k <= |rows| && forall l :: 0 <= l < |rows| ==> rows[l] < |txs|
      invariant FirstOf(txs, rows[k..], q) == Newest(txs, q)
    {
      if Matches(q, txs[rows[k]]) {
        return Some(rows[k]);
      }
      assert rows[k..][1..] == rows[k + 1..];
      k := k + 1;
    }
    return None;
  }
}
