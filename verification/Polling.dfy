// Failed confirmations leave no trace: whatever was polled, reverted, mismatched or cut off before it,
// a successful confirmation writes what a direct one would have written.
module Polling {
  import opened Basics
  import opened HashCodec
  import opened ChainReader
  import opened Tables
  import opened Protocol
  import opened Shapes
  import opened Invariants
  import opened Agreement
  import R = Registry
  import I = Issuance
  import V = Revocation

  /** One call of confirm_blockchain_storage, with whatever the chain happened to answer. */
  datatype Attempt = Attempt(user: Staff, txHash: string, receipt: Rpc<Option<Receipt>>,
                             record: Rpc<Option<ChainRecord>>)

  function Try(t: Tables, id: nat, a: Attempt): (Tables, Reply<I.ConfirmStatus>) {
    I.Confirm(t, a.user, id, a.txHash, a.receipt, a.record)
  }

  predicate Succeeds(t: Tables, id: nat, a: Attempt) {
    Try(t, id, a).1 == Ok(I.NowConfirmed)
  }

  function TryAll(t: Tables, id: nat, attempts: seq<Attempt>): Tables
    decreases |attempts|
  {
    if attempts == [] then t else TryAll(Try(t, id, attempts[0]).0, id, attempts[1..])
  }

  predicate NoneSucceeds(t: Tables, id: nat, attempts: seq<Attempt>)
    decreases |attempts|
  {
    attempts == [] || (!Succeeds(t, id, attempts[0]) && NoneSucceeds(Try(t, id, attempts[0]).0, id, attempts[1..]))
  }

  /** All that failed attempts can change: two columns of the store row, and the certificate's progress. */
  ghost predicate OnlyProgress(t: Tables, t': Tables, id: nat) {
    var slot := Newest(t.txs, StoreOf(id));
    && id < |t.certs| && I.Confirmable(t.certs[id])
    && |t'.certs| == |t.certs| && I.Confirmable(t'.certs[id])
    && t'.certs == t.certs[id := t.certs[id].(status := t'.certs[id].status)]
    && |t'.txs| == |t.txs|
    && (if slot.None? then t'.txs == t.txs
        else
          var row := t.txs[slot.value].(status := t'.txs[slot.value].status, txHash := t'.txs[slot.value].txHash);
          t'.txs[slot.value] == row && forall j :: 0 <= j < |t.txs| && j != slot.value ==> t'.txs[j] == t.txs[j])
    && t' == t.(certs := t'.certs, txs := t'.txs)
  }

  lemma ProgressKeepsSlot(t: Tables, t': Tables, id: nat)
    requires OnlyProgress(t, t', id)
    ensures Newest(t'.txs, StoreOf(id)) == Newest(t.txs, StoreOf(id))
  {
    NewestFrame(t.txs, t'.txs, StoreOf(id));
  }

  lemma CasesAreProgress(t: Tables, t': Tables, reply: Reply<I.ConfirmStatus>, id: nat, txHash: string,
                         receipt: Rpc<Option<Receipt>>, record: Rpc<Option<ChainRecord>>)
    requires ConfirmCases(t, t', reply, id, txHash, receipt, record) && reply != Ok(I.NowConfirmed)
    requires id < |t.certs| && I.Confirmable(t.certs[id])
    ensures OnlyProgress(t, t', id)
  {
    assert t.certs[id := t.certs[id].(status := t.certs[id].status)] == t.certs;
  }

  lemma FailureIsProgress(t: Tables, id: nat, a: Attempt)
    requires id < |t.certs| && I.Confirmable(t.certs[id]) && !Succeeds(t, id, a)
    ensures OnlyProgress(t, Try(t, id, a).0, id)
  {
    var (t', reply) := Try(t, id, a);
    ConfirmShape(t, a.user, id, a.txHash, a.receipt, a.record);
    CasesAreProgress(t, t', reply, id, a.txHash, a.receipt, a.record);
  }

  lemma ProgressChains(t: Tables, t1: Tables, t2: Tables, id: nat)
    requires OnlyProgress(t, t1, id) && OnlyProgress(t1, t2, id)
    ensures OnlyProgress(t, t2, id)
  {
    ProgressKeepsSlot(t, t1, id);
  }

  lemma {:induction false} FailuresAreProgress(t: Tables, id: nat, attempts: seq<Attempt>)
    requires id < |t.certs| && I.Confirmable(t.certs[id]) && NoneSucceeds(t, id, attempts)
    ensures OnlyProgress(t, TryAll(t, id, attempts), id)
    decreases |attempts|
  {
    if attempts == [] {
      assert t.certs[id := t.certs[id].(status := t.certs[id].status)] == t.certs;
    } else {
      var t1 := Try(t, id, attempts[0]).0;
      FailureIsProgress(t, id, attempts[0]);
      FailuresAreProgress(t1, id, attempts[1..]);
      ProgressChains(t, t1, TryAll(t1, id, attempts[1..]), id);
    }
  }

  /** The table takes a row in place of the store row just as before the failures. */
  lemma SameAcceptance(t: Tables, t': Tables, id: nat, i: nat, txHash: string, receipt: Receipt, at: nat)
    requires OnlyProgress(t, t', id) && Newest(t.txs, StoreOf(id)) == Some(i)
    ensures MinedRow(t'.txs[i], txHash, receipt, at) == MinedRow(t.txs[i], txHash, receipt, at)
    ensures var row := MinedRow(t.txs[i], txHash, receipt, at);
            && (TxAccepts(t'.txs, i, row) <==> TxAccepts(t.txs, i, row))
            && (TxAccepts(t.txs, i, row) ==> t'.txs[i := row] == t.txs[i := row])
  {
  }

  lemma SameSettlement(t: Tables, t': Tables, u: Tables, u': Tables, id: nat, txHash: string, receipt: Receipt, at: nat)
    requires OnlyProgress(t, t', id)
    requires WithStatus(t, u, id, Confirmed) && Settles(t.txs, u.txs, StoreOf(id), txHash, receipt, at)
    requires WithStatus(t', u', id, Confirmed) && Settles(t'.txs, u'.txs, StoreOf(id), txHash, receipt, at)
    ensures u' == u
  {
    ProgressKeepsSlot(t, t', id);
    var slot := Newest(t.txs, StoreOf(id));
    if slot.Some? {
      SameAcceptance(t, t', id, slot.value, txHash, receipt, at);
    }
    assert u'.certs == u.certs;
  }

  lemma SuccessAfterProgress(t: Tables, t': Tables, id: nat, a: Attempt)
    requires OnlyProgress(t, t', id)
    ensures Succeeds(t', id, a) <==> Succeeds(t, id, a)
  {
    ConfirmSucceeds(t, a.user, id, a.txHash, a.receipt, a.record);
    ConfirmSucceeds(t', a.user, id, a.txHash, a.receipt, a.record);
    ProgressKeepsSlot(t, t', id);
    var slot := Newest(t.txs, StoreOf(id));
    if slot.Some? && a.receipt.Answer? && a.receipt.value.Some? && a.record.Answer? && a.record.value.Some? {
      SameAcceptance(t, t', id, slot.value, a.txHash, a.receipt.value.value, a.record.value.value.issuedAt);
    }
  }

  lemma SameSuccess(t: Tables, t': Tables, id: nat, a: Attempt)
    requires OnlyProgress(t, t', id) && Succeeds(t, id, a) && Succeeds(t', id, a)
    ensures Try(t', id, a).0 == Try(t, id, a).0
  {
    ConfirmShape(t, a.user, id, a.txHash, a.receipt, a.record);
    ConfirmShape(t', a.user, id, a.txHash, a.receipt, a.record);
    SameSettlement(t, t', Try(t, id, a).0, Try(t', id, a).0, id, a.txHash, a.receipt.value.value,
                   a.record.value.value.issuedAt);
  }

  /**
   * Polling and outages leave no trace. Take any attempts to confirm a certificate, by anyone, with any
   * transaction hashes, receipts and records, none of which succeeds. They do not decide whether the
   * next attempt succeeds, and if it does the tables are what they would have been without them.
   */
  lemma FailuresLeaveNoTrace(t: Tables, id: nat, failed: seq<Attempt>, a: Attempt)
    requires NoneSucceeds(t, id, failed)
    ensures Succeeds(TryAll(t, id, failed), id, a) <==> Succeeds(t, id, a)
    ensures Succeeds(t, id, a) ==> Try(TryAll(t, id, failed), id, a).0 == Try(t, id, a).0
  {
    if id < |t.certs| && I.Confirmable(t.certs[id]) {
      FailuresAreProgress(t, id, failed);
      SuccessAfterProgress(t, TryAll(t, id, failed), id, a);
      if Succeeds(t, id, a) {
        SameSuccess(t, TryAll(t, id, failed), id, a);
      }
    } else {
      NothingToTry(t, id, failed);
    }
  }

  lemma {:induction false} NothingToTry(t: Tables, id: nat, attempts: seq<Attempt>)
    requires id >= |t.certs| || !I.Confirmable(t.certs[id])
    ensures TryAll(t, id, attempts) == t
    decreases |attempts|
  {
    if attempts == [] {
    } else {
      NothingToTry(t, id, attempts[1..]);
    }
  }

  // ----- The same over whole runs, with everything else going on -----

  /** The columns of a transaction row that no update writes. */
  ghost predicate SameOrigin(row: TxRow, row': TxRow) {
    && row'.certificate == row.certificate && row'.txType == row.txType && row'.fromAddress == row.fromAddress
    && row'.hashStored == row.hashStored && row'.errorMessage == row.errorMessage
  }

  ghost predicate OriginsKept(txs: seq<TxRow>, txs': seq<TxRow>) {
    |txs| <= |txs'| && forall i :: 0 <= i < |txs| ==> SameOrigin(txs[i], txs'[i])
  }

  lemma ConfirmKeepsOrigins(t: Tables, t': Tables, reply: Reply<I.ConfirmStatus>, id: nat, txHash: string,
                            receipt: Rpc<Option<Receipt>>, record: Rpc<Option<ChainRecord>>)
    requires ConfirmCases(t, t', reply, id, txHash, receipt, record)
    ensures OriginsKept(t.txs, t'.txs)
  {
  }

  lemma RevokeKeepsOrigins(t: Tables, t': Tables, reply: Reply<V.RevokeStatus>, user: Staff, id: nat, txHash: string,
                           receipt: Rpc<Option<Receipt>>, record: Rpc<Option<ChainRecord>>, now: nat)
    requires RevokeCases(t, t', reply, user, id, txHash, receipt, record, now)
    ensures OriginsKept(t.txs, t'.txs)
  {
  }

  lemma StepKeepsOrigins(s: System, e: Event)
    ensures OriginsKept(s.db.txs, Step(s, e).db.txs)
  {
    StepFrame(s, e);
    match e
    case Confirm(user, id, txHash, receipt, io) =>
      var record := SecondRecord(s, id, io);
      var (t', reply) := I.Confirm(s.db, user, id, txHash, receipt, record);
      ConfirmShape(s.db, user, id, txHash, receipt, record);
      ConfirmKeepsOrigins(s.db, t', reply, id, txHash, receipt, record);
    case ConfirmRevoke(user, id, txHash, receipt, io, now) =>
      var record := SecondRecord(s, id, io);
      var (t', reply) := V.ConfirmRevoke(s.db, user, id, txHash, receipt, record, now);
      RevokeShape(s.db, user, id, txHash, receipt, record, now);
      RevokeKeepsOrigins(s.db, t', reply, user, id, txHash, receipt, record, now);
    case _ =>
  }

  lemma {:induction false} RunKeepsOrigins(s: System, es: seq<Event>)
    ensures OriginsKept(s.db.txs, Run(s, es).db.txs)
  {
    if es == [] {
    } else {
      RunKeepsOrigins(s, es[..|es| - 1]);
      StepKeepsOrigins(Run(s, es[..|es| - 1]), es[|es| - 1]);
    }
  }

  /** Row `row` with the confirmation written over it. */
  ghost predicate SameMined(row: TxRow, row': TxRow, txHash: string, receipt: Receipt, at: nat) {
    row' == MinedRow(row, txHash, receipt, at)
  }

  /** Certificate `k` and its store row as they were in `t`, with the confirmation `a` written over them. */
  ghost predicate WrittenOver(t: Tables, t': Tables, k: nat, a: Attempt) {
    && k < |t.certs| && k < |t'.certs| && t'.certs[k] == t.certs[k].(status := Confirmed)
    && a.receipt.Answer? && a.receipt.value.Some? && a.record.Answer? && a.record.value.Some?
    && var slot := Newest(t.txs, StoreOf(k));
       && slot.Some? && slot.value < |t'.txs|
       && SameMined(t.txs[slot.value], t'.txs[slot.value], a.txHash, a.receipt.value.value,
                    a.record.value.value.issuedAt)
  }

  lemma ForgetsFrom(t: Tables, later: Tables, t': Tables, k: nat, a: Attempt, i: nat)
    requires Onward(t.certs, later.certs) && OriginsKept(t.txs, later.txs)
    requires k < |t.certs| && I.Confirmable(t.certs[k]) && t.certs[k].isActive && later.certs[k].isActive
    requires Newest(t.txs, StoreOf(k)) == Some(i) && Newest(later.txs, StoreOf(k)) == Some(i)
    requires a.receipt.Answer? && a.receipt.value.Some? && a.record.Answer? && a.record.value.Some?
    requires WithStatus(later, t', k, Confirmed)
    requires Settles(later.txs, t'.txs, StoreOf(k), a.txHash, a.receipt.value.value, a.record.value.value.issuedAt)
    ensures WrittenOver(t, t', k, a)
  {
    assert SameOrigin(t.txs[i], later.txs[i]);
  }

  /** The store row of an unconfirmed certificate is found in the same place ever after. */
  lemma StoreStays(t: Tables, later: Tables, c: R.Chain, k: nat)
    requires CertsOk(t, c) && RowsOk(later) && OriginsKept(t.txs,
                                                           later.txs) && |t.certs| <= |later.certs| && k < |t.certs|
    ensures Newest(t.txs, StoreOf(k)).Some? && Newest(later.txs, StoreOf(k)) == Newest(t.txs, StoreOf(k))
  {
    assert CertOk(t.certs[k], StoreStatus(t.txs, k), c);
    var i := Newest(t.txs, StoreOf(k)).value;
    assert SameOrigin(t.txs[i], later.txs[i]);
    StoreSlot(later, i, k);
  }

  lemma ForgetsBetween(s: System, later: System, k: nat, a: Attempt)
    requires Inv(s) && Inv(later) && Onward(s.db.certs, later.db.certs) && OriginsKept(s.db.txs, later.db.txs)
    requires k < |s.db.certs| && I.Confirmable(s.db.certs[k]) && Succeeds(later.db, k, a)
    ensures WrittenOver(s.db, Try(later.db, k, a).0, k, a)
  {
    StoreStays(s.db, later.db, s.chain, k);
    ConfirmShape(later.db, a.user, k, a.txHash, a.receipt, a.record);
    ForgetsFrom(s.db, later.db, Try(later.db, k, a).0, k, a, Newest(s.db.txs, StoreOf(k)).value);
  }

  /**
   * Over whole runs: let a certificate be unconfirmed at some moment, let anything at all happen after
   * it, and let a confirmation then succeed. The certificate and its store row are the rows of that
   * first moment with the confirmation written over them; nothing that happened between shows.
   */
  lemma ConfirmationForgets(owner: Address, es: seq<Event>, more: seq<Event>, k: nat, a: Attempt)
    requires k < |Run(Start(owner), es).db.certs|
    requires I.Confirmable(Run(Start(owner), es).db.certs[k])
    requires Succeeds(Run(Start(owner), es + more).db, k, a)
    ensures WrittenOver(Run(Start(owner), es).db, Try(Run(Start(owner), es + more).db, k, a).0, k, a)
  {
    var s := Run(Start(owner), es);
    StartOk(owner);
    RunKeeps(Start(owner), es);
    RunAppend(Start(owner), es, more);
    RunKeeps(s, more);
    RunOnward(s, more);
    RunKeepsOrigins(s, more);
    ForgetsBetween(s, Run(s, more), k, a);
  }
}
