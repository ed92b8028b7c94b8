/**
 * `MPay.check`: the integrity checks the engine runs on demand. The
 * store's own constraints are not re-checked here; what is checked is the
 * engine-level bookkeeping that the balance triggers maintain.
 */
module Checker {
  import opened Common
  import opened Text
  import opened Schema
  import opened Ledger

  /** What `check` reports when it raises `AssertionError`. */
  datatype CheckFailure =
    | IntegrityReport          // sqlite's `PRAGMA integrity_check` did not answer "ok"
    | ForeignKeyReport         // sqlite's `PRAGMA foreign_key_check` listed violations
    | NonZeroSum               // the balances do not sum to zero
    | BalanceMismatch(user: nat) // the first user whose balance is not incoming minus outgoing

  /**
   * The database engine behind the session. For sqlite the two pragmas
   * inspect the database file itself; their answers are inputs here.
   */
  datatype Engine =
    | Sqlite(integrity: string, foreignKeyRows: nat)
    | OtherEngine

  /** The sqlite-specific checks pass (`integrity_check` answers "ok" up to case and whitespace). */
  predicate EngineOk(e: Engine) {
    e.Sqlite? ==> Strip(Lower(e.integrity)) == "ok" && e.foreignKeyRows == 0
  }

  /** User `u`'s stored balance is what the transaction table says it should be. */
  predicate BalanceMatches(users: seq<User>, txs: seq<Transaction>, u: nat)
    requires u < |users|
  {
    Incoming(txs, u) - Outgoing(txs, u) == users[u].balance
  }

  /**
   * `check`: the sqlite pragmas first, then the balance sum, then each user
   * in id order; the first failing check is the one reported.
   */
  method Check(db: Database, engine: Engine) returns (r: Outcome<CheckFailure>)
    ensures r.Pass? <==>
      && EngineOk(engine) && BalanceSum(db.users) == 0
      && forall u :: 0 <= u < |db.users| ==> db.users[u].balance == Net(db.txs, u)
    ensures engine.Sqlite? && Strip(Lower(engine.integrity)) != "ok" ==> r == Fail(IntegrityReport)
    ensures engine.Sqlite? && Strip(Lower(engine.integrity)) == "ok" && engine.foreignKeyRows != 0 ==> r == Fail(ForeignKeyReport)
    ensures r == Fail(NonZeroSum) <==> EngineOk(engine) && BalanceSum(db.users) != 0
    ensures r == Fail(IntegrityReport) ==> engine.Sqlite? && Strip(Lower(engine.integrity)) != "ok"
    ensures r == Fail(ForeignKeyReport) ==> engine.Sqlite? && Strip(Lower(engine.integrity)) == "ok" && engine.foreignKeyRows != 0
    ensures r.Fail? && EngineOk(engine) && BalanceSum(db.users) == 0 ==> r.error.BalanceMismatch?
    ensures r.Fail? && r.error.BalanceMismatch? ==>
      && EngineOk(engine) && BalanceSum(db.users) == 0
      && r.error.user < |db.users| && db.users[r.error.user].balance != Net(db.txs, r.error.user)
      && forall u :: 0 <= u < r.error.user ==> db.users[u].balance == Net(db.txs, u)
  {
    if engine.Sqlite? {
      if Strip(Lower(engine.integrity)) != "ok" {
        return Fail(IntegrityReport);
      }
      if engine.foreignKeyRows != 0 {
        return Fail(ForeignKeyReport);
      }
    }
    var balanceSum := BalanceSum(db.users);
    if balanceSum != 0 {
      return Fail(NonZeroSum);
    }
    var u := 0;
    while u < |db.users|
      invariant 0 <= u <= |db.users|
      invariant forall v :: 0 <= v < u ==> db.users[v].balance == Net(db.txs, v)
    {
      var outgoingSum := Outgoing(db.txs, u);
      var incomingSum := Incoming(db.txs, u);
      if incomingSum - outgoingSum != db.users[u].balance {
        return Fail(BalanceMismatch(u));
      }
      u := u + 1;
    }
    return Pass;
  }

  /**
   * The per-user invariant implies the global one: when every balance is
   * its net and every row moves money between two existing users, the
   * balances sum to zero.
   */
  lemma ConsistentIsConserved(users: seq<User>, txs: seq<Transaction>, n: Sizes)
    requires n.users == |users| && RowsAdmissible(txs, n)
    requires forall u :: 0 <= u < |users| ==> users[u].balance == Net(txs, u)
    ensures BalanceSum(users) == 0
  {
    forall k | 0 <= k < |txs| ensures txs[k].userFrom < |users| && txs[k].userTo < |users| {
      assert RowAdmissible(txs[k], n);
    }
    NetTotalZero(txs, |users|);
    BalanceSumIsNetTotal(users, txs);
  }

  /**
   * Soundness of `check`: on a store the balance triggers have kept
   * consistent, the balance checks cannot fail, so `check` passes whenever
   * the engine's own pragmas do.
   */
  lemma CheckSound(db: Database, engine: Engine)
    requires db.Wf() && db.Consistent() && EngineOk(engine)
    ensures BalanceSum(db.users) == 0
    ensures forall u :: 0 <= u < |db.users| ==> BalanceMatches(db.users, db.txs, u)
  {
    ConsistentIsConserved(db.users, db.txs, db.Sizes());
  }
}
