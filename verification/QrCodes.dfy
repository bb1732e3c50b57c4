// QR code lifecycle: backend/services/qr_verification_service.py.
module QrCodes {
  import opened Basics
  import opened Tables
  import opened Database

  function Retire(qrs: seq<Qr>, q: Option<nat>): seq<Qr>
    requires q.Some? ==> q.value < |qrs|
  {
    match q
    case None => qrs
    case Some(i) => qrs[i := qrs[i].(isActive := false)]
  }

  /** generate_qr_for_certificate; `token` is what secrets.token_urlsafe returns. */
  function Generate(t: Tables, id: nat, token: string): (Tables, Reply<nat>) {
    if id >= |t.certs| then (t, Raise(CertificateNotFound))
    else if !t.certs[id].status.Confirmed? then (t, Raise(UnconfirmedCertificate))
    else
      var qrs := Retire(t.qrs, FindActiveQr(t.qrs, id));
      var qr := Qr(id, token, true, 0, None);
      if QrAccepts(qrs, qr) then (t.(qrs := qrs + [qr]), Ok(|qrs|)) else (t, Raise(IntegrityError))
  }

  method GenerateQrForCertificate(db: Session, id: nat, token: string) returns (reply: Reply<nat>)
    modifies db
    ensures (db.Now(), reply) == Generate(old(db.Now()), id, token)
  {
    db.Begin();
    if id >= |db.certs| {
      return Raise(CertificateNotFound);
    }
    if !db.certs[id].status.Confirmed? {
      return Raise(UnconfirmedCertificate);
    }
    var existing := FindActiveQr(db.qrs, id);
    if existing.Some? {
      db.DeactivateQr(existing.value);
    }
    var ok := db.CreateQr(Qr(id, token, true, 0, None));
    if !ok {
      db.Rollback();
      return Raise(IntegrityError);
    }
    return Ok(|db.qrs| - 1);
  }
}
