/**
 * Schema revision 931cbe1524ae ("transaction amount not negative"). Its
 * upgrade rewrites the `transactions` table in place: it backfills the new
 * `user_created_id` column from `user_from_id`, then turns every row with
 * a negative `converted_amount` around (sender and recipient swapped, both
 * amounts negated), and finally adds the two non-negativity CHECK
 * constraints, which fail if some row still violates them. The table is
 * an array; a failed upgrade leaves it as it was.
 */
module Migration {
  import opened Common
  import opened Schema

  /** The backfill: `SET user_created_id = user_from_id WHERE user_created_id IS NULL`. */
  function Backfilled(t: Transaction): (r: Transaction)
    ensures r.userCreated.Some?
    ensures t.userCreated.None? ==> r.userCreated == Some(t.userFrom)
    ensures r.(userCreated := t.userCreated) == t
  {
    if t.userCreated.None? then t.(userCreated := Some(t.userFrom)) else t
  }

  /** SQL negation, under which NULL stays NULL. */
  function Negated(a: Option<int>): Option<int> {
    match a
    case None => None
    case Some(v) => Some(-v)
  }

  /**
   * The flip: a row with `converted_amount < 0` becomes the same movement of
   * money written the other way round; every other row is left alone.
   */
  function Flipped(t: Transaction): (r: Transaction)
    ensures r.convertedAmount >= 0 || r == t
    ensures t.convertedAmount >= 0 ==> r == t
    ensures t.convertedAmount < 0 ==>
      && r.userFrom == t.userTo && r.userTo == t.userFrom
      && r.convertedAmount == -t.convertedAmount && r.originalAmount == Negated(t.originalAmount)
      && r.(userFrom := t.userFrom, userTo := t.userTo, convertedAmount := t.convertedAmount,
            originalAmount := t.originalAmount) == t
  {
    if t.convertedAmount < 0 then
      t.(userFrom := t.userTo, userTo := t.userFrom, convertedAmount := -t.convertedAmount,
         originalAmount := Negated(t.originalAmount))
    else t
  }

  /** A row as the upgrade leaves it: backfilled, then flipped. */
  function Migrated(t: Transaction): Transaction {
    Flipped(Backfilled(t))
  }

  /** The whole table as the upgrade leaves it. */
  function MigratedAll(rows: seq<Transaction>): (r: seq<Transaction>)
    ensures |r| == |rows| && forall i :: 0 <= i < |rows| ==> r[i] == Migrated(rows[i])
  {
    seq(|rows|, i requires 0 <= i < |rows| => Migrated(rows[i]))
  }

  /** Runs the backfill UPDATE over the table. */
  method Backfill(rows: array<Transaction>)
    modifies rows
    ensures forall i :: 0 <= i < rows.Length ==> rows[i] == Backfilled(old(rows[i]))
  {
    var i := 0;
    while i < rows.Length
      invariant 0 <= i <= rows.Length
      invariant forall j :: 0 <= j < i ==> rows[j] == Backfilled(old(rows[j]))
      invariant forall j :: i <= j < rows.Length ==> rows[j] == old(rows[j])
    {
      if rows[i].userCreated.None? {
        rows[i] := rows[i].(userCreated := Some(rows[i].userFrom));
      }
      i := i + 1;
    }
  }

  /** Runs the flip UPDATE over the table. */
  method Flip(rows: array<Transaction>)
    modifies rows
    ensures forall i :: 0 <= i < rows.Length ==> rows[i] == Flipped(old(rows[i]))
  {
    var i := 0;
    while i < rows.Length
      invariant 0 <= i <= rows.Length
      invariant forall j :: 0 <= j < i ==> rows[j] == Flipped(old(rows[j]))
      invariant forall j :: i <= j < rows.Length ==> rows[j] == old(rows[j])
    {
      var t := rows[i];
      if t.convertedAmount < 0 {
        rows[i] := t.(userFrom := t.userTo, userTo := t.userFrom, convertedAmount := -t.convertedAmount,
                      originalAmount := Negated(t.originalAmount));
      }
      i := i + 1;
    }
  }

  /** Adding the two CHECK constraints succeeds exactly when every existing row meets them. */
  method ConstraintsHold(rows: array<Transaction>) returns (ok: bool)
    ensures ok <==> forall i :: 0 <= i < rows.Length ==> AmountsNotNegative(rows[i])
  {
    var i := 0;
    while i < rows.Length
      invariant 0 <= i <= rows.Length
      invariant forall j :: 0 <= j < i ==> AmountsNotNegative(rows[j])
    {
      if !AmountsNotNegative(rows[i]) {
        return false;
      }
      i := i + 1;
    }
    return true;
  }

  /**
   * `upgrade`: backfill, flip, then add the constraints; when a constraint
   * cannot be added the revision is not applied and the table is unchanged.
   */
  method Upgrade(rows: array<Transaction>) returns (ok: bool)
    modifies rows
    ensures ok <==> forall i :: 0 <= i < rows.Length ==> AmountsNotNegative(Migrated(old(rows[i])))
    ensures ok ==> rows[..] == MigratedAll(old(rows[..]))
    ensures !ok ==> rows[..] == old(rows[..])
  {
    var saved := rows[..];
    Backfill(rows);
    Flip(rows);
    ok := ConstraintsHold(rows);
    if !ok {
      forall i | 0 <= i < rows.Length {
        rows[i] := saved[i];
      }
    }
  }

  /** `downgrade`: only the column and the constraints go; the amounts stay as the upgrade left them. */
  method Downgrade(rows: array<Transaction>)
    modifies rows
    ensures forall i :: 0 <= i < rows.Length ==> rows[i] == old(rows[i]).(userCreated := None)
  {
    forall i | 0 <= i < rows.Length {
      rows[i] := rows[i].(userCreated := None);
    }
  }

  // ---------------------------------------------------------------------------
  // Properties

  /** After a successful upgrade every row carries a creator and a non-negative amount. */
  lemma UpgradedRowsOk(t: Transaction)
    requires AmountsNotNegative(Migrated(t)) && TransactionChecks(t)
    ensures TransactionRowOk(Migrated(t))
  {
  }

  /** The upgrade fails exactly on a row whose original amount has the opposite sign of its converted amount. */
  lemma UpgradeAdmits(t: Transaction)
    ensures AmountsNotNegative(Migrated(t)) <==>
      (t.originalAmount.None?
       || (t.convertedAmount < 0 && t.originalAmount.value <= 0)
       || (t.convertedAmount >= 0 && t.originalAmount.value >= 0))
  {
  }

  /**
   * The backfill runs before the flip, so the creator is the old sender:
   * for a flipped row that is the new recipient, otherwise the sender.
   */
  lemma CreatorAfterUpgrade(t: Transaction)
    requires t.userCreated.None?
    ensures Migrated(t).userCreated == Some(if t.convertedAmount < 0 then Migrated(t).userTo else Migrated(t).userFrom)
  {
  }

  /** Turning a row around moves the same money between the same users. */
  lemma FlipBalanceNeutral(t: Transaction, u: nat)
    ensures Delta(Migrated(t), u) == Delta(t, u)
  {
  }

  /**
   * The rewrite is balance-neutral: every user's incoming minus outgoing is
   * the same over the upgraded table, so balances that matched the old
   * rows match the new ones, and the update trigger (old row out, new row
   * in) would change no balance.
   */
  lemma {:induction false} MigratedNet(rows: seq<Transaction>, u: nat)
    ensures Net(MigratedAll(rows), u) == Net(rows, u)
    decreases |rows|
  {
    if rows != [] {
      var n := |rows| - 1;
      assert MigratedAll(rows)[..n] == MigratedAll(rows[..n]);
      MigratedNet(rows[..n], u);
      FlipBalanceNeutral(rows[n], u);
    }
  }

  /** Running the upgrade's rewrite a second time changes nothing. */
  lemma MigratedIdempotent(t: Transaction)
    ensures Migrated(Migrated(t)) == Migrated(t)
  {
  }

  /** The flip leaves rows that already meet the new constraints alone. */
  lemma FlipKeepsNonNegative(t: Transaction)
    requires AmountsNotNegative(t)
    ensures Flipped(t) == t
  {
  }

  /** `downgrade` does not undo the flip: a negative row does not come back. */
  lemma DowngradeKeepsFlip(t: Transaction)
    requires t.userCreated.None? && t.convertedAmount < 0
    ensures Migrated(t).(userCreated := None) != t
    ensures Migrated(t).(userCreated := None).convertedAmount == -t.convertedAmount
  {
  }
}
