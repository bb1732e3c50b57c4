// The issuer side of the store: backend/services/university_service.py.
module Universities {
  import opened Basics
  import opened HashCodec
  import opened Tables
  import opened Database

  /** register_university: starts unverified and without a wallet. */
  function Register(t: Tables, code: string): (Tables, Reply<nat>) {
    var row := UniversityRow(Upper(code), None, false);
    var stored := ClippedUni(row);
    if CodeTaken(t.unis, row.shortCode) then (t, Raise(Conflict))
    else if !Fits(row.shortCode, SHORT_CODE_WIDTH) || !UniversityChecks(stored)
            || CodeTaken(t.unis, stored.shortCode) then (t, Raise(IntegrityError))
    else (t.(unis := t.unis + [stored]), Ok(|t.unis|))
  }

  /** verify_university */
  function VerifyUni(t: Tables, u: nat): (Tables, Reply<nat>) {
    if u >= |t.unis| then (t, Raise(UniversityNotFound))
    else if t.unis[u].isVerified then (t, Raise(UniversityAlreadyVerified))
    else (t.(unis := t.unis[u := t.unis[u].(isVerified := true)]), Ok(u))
  }

  /** update_wallet_address: wallets are unique as exact strings. */
  function SetWallet(t: Tables, user: Staff, u: nat, wallet: string): (Tables, Reply<nat>) {
    if user.university != u then (t, Raise(OwnershipViolation))
    else if u >= |t.unis| then (t, Raise(UniversityNotFound))
    else if !t.unis[u].isVerified then (t, Raise(UnverifiedUniversity))
    else if WalletTaken(t.unis, wallet, u) then (t, Raise(Conflict))
    else if !IsWallet(wallet) then (t, Raise(IntegrityError))
    else (t.(unis := t.unis[u := t.unis[u].(wallet := Some(wallet))]), Ok(u))
  }

  method RegisterUniversity(db: Session, code: string) returns (reply: Reply<nat>)
    modifies db
    ensures (db.Now(), reply) == Register(old(db.Now()), code)
  {
    db.Begin();
    var shortCode := Upper(code);
    if CodeTaken(db.unis, shortCode) {
      return Raise(Conflict);
    }
    var ok := db.CreateUniversity(UniversityRow(shortCode, None, false));
    return if ok then Ok(|db.unis| - 1) else Raise(IntegrityError);
  }

  method VerifyUniversity(db: Session, u: nat) returns (reply: Reply<nat>)
    modifies db
    ensures (db.Now(), reply) == VerifyUni(old(db.Now()), u)
  {
    db.Begin();
    if u >= |db.unis| {
      return Raise(UniversityNotFound);
    }
    if db.unis[u].isVerified {
      return Raise(UniversityAlreadyVerified);
    }
    db.SetVerified(u);
    return Ok(u);
  }

  method UpdateWalletAddress(db: Session, user: Staff, u: nat, wallet: string) returns (reply: Reply<nat>)
    modifies db
    ensures (db.Now(), reply) == SetWallet(old(db.Now()), user, u, wallet)
  {
    if user.university != u {
      return Raise(OwnershipViolation);
    }
    db.Begin();
    if u >= |db.unis| {
      return Raise(UniversityNotFound);
    }
    if !db.unis[u].isVerified {
      return Raise(UnverifiedUniversity);
    }
    if WalletTaken(db.unis, wallet, u) {
      return Raise(Conflict);
    }
    var ok := db.UpdateWalletAddress(u, wallet);
    return if ok then Ok(u) else Raise(IntegrityError);
  }
}
