/**
 * The store of mpay/db.py as one object whose tables are updated in place:
 * inserts that the schema's constraints may reject, and the three triggers on
 * `transactions` that keep `users.balance` equal to the signed sum of the
 * transactions touching each user.
 */
module Ledger {
  import opened Common
  import opened Schema

  class Database {
    var users: seq<User>
    var currencies: seq<Currency>
    var agents: seq<Agent>
    var tags: seq<Tag>
    var orders: seq<StandingOrder>
    var txs: seq<Transaction>

    /** The current size of every table a transaction row may refer to. */
    function Sizes(): Sizes
      reads this`users, this`currencies, this`orders, this`agents, this`tags
    {
      Schema.Sizes(|users|, |currencies|, |orders|, |agents|, |tags|)
    }

    /** The store accepts row `t` into `transactions`. */
    predicate Admissible(t: Transaction)
      reads this`users, this`currencies, this`orders, this`agents, this`tags
    {
      RowAdmissible(t, Sizes())
    }

    /** Every constraint of the schema holds. */
    predicate Wf()
      reads this
    {
      StoreWf(users, currencies, agents, tags, orders, txs)
    }

    /** Per-user invariant: each balance is incoming minus outgoing. */
    predicate Consistent()
      reads this`users, this`txs
    {
      forall u :: 0 <= u < |users| ==> users[u].balance == Net(txs, u)
    }

    /** Global invariant: the balances sum to zero. */
    predicate Conserved()
      reads this`users
    {
      BalanceSum(users) == 0
    }

    constructor ()
      ensures Wf() && Consistent() && Conserved()
      ensures users == [] && currencies == [] && agents == [] && tags == [] && orders == [] && txs == []
    {
      users, currencies, agents, tags, orders, txs := [], [], [], [], [], [];
    }

    /** One statement of a trigger: `UPDATE users SET balance = balance + d WHERE id = u`. */
    method AdjustBalance(u: nat, d: int)
      requires Wf() && u < |users|
      modifies this`users
      ensures Wf()
      ensures users == old(users)[u := old(users)[u].(balance := old(users)[u].balance + d)]
      ensures BalanceSum(users) == old(BalanceSum(users)) + d
    {
      BalanceSumUpdate(users, u, users[u].(balance := users[u].balance + d));
      users := users[u := users[u].(balance := users[u].balance + d)];
    }

    /**
     * The two statements a trigger runs for one row: the sender pays and the
     * recipient receives, or, with `undo`, the reverse.
     */
    method ApplyRow(t: Transaction, undo: bool)
      requires Wf() && t.userFrom < |users| && t.userTo < |users|
      modifies this`users
      ensures Wf()
      ensures |users| == |old(users)|
      ensures forall v :: 0 <= v < |users| ==>
        users[v] == old(users[v]).(balance := old(users[v].balance) + (if undo then -Delta(t, v) else Delta(t, v)))
      ensures BalanceSum(users) == old(BalanceSum(users))
    {
      var d := if undo then -t.convertedAmount else t.convertedAmount;
      AdjustBalance(t.userFrom, -d);
      AdjustBalance(t.userTo, d);
    }

    /**
     * INSERT INTO transactions, firing `update_balance_insert`: the sender
     * loses the amount, the recipient gains it, nobody else changes.
     * A row the constraints reject changes nothing.
     */
    method Insert(t: Transaction) returns (ok: bool)
      requires Wf()
      modifies this`users, this`txs
      ensures Wf()
      ensures |users| == |old(users)|
      ensures ok <==> old(Admissible(t))
      ensures ok ==> txs == old(txs) + [t]
      ensures ok ==> users[t.userFrom].balance == old(users[t.userFrom].balance) - t.convertedAmount
      ensures ok ==> users[t.userTo].balance == old(users[t.userTo].balance) + t.convertedAmount
      ensures ok ==> forall v :: 0 <= v < |users| ==> users[v] == old(users[v]).(balance := old(users[v].balance) + Delta(t, v))
      ensures forall v :: 0 <= v < |users| && v != t.userFrom && v != t.userTo ==> users[v] == old(users[v])
      ensures forall v :: 0 <= v < |users| ==> users[v].name == old(users[v].name)
      ensures !ok ==> txs == old(txs) && users == old(users)
      ensures old(Consistent()) ==> Consistent()
      ensures old(Conserved()) ==> Conserved()
    {
      ok := Admissible(t);
      if !ok {
        return;
      }
      ghost var txs0, users0 := txs, users;
      txs := txs + [t];
      ApplyRow(t, false);
      NetSnocAll(txs0, t, users0, users);
    }

    /**
     * UPDATE of row `i` to `t`, firing `update_balance_update`: the old row's
     * effect is reversed, then the new row's effect is applied.
     */
    method Update(i: nat, t: Transaction) returns (ok: bool)
      requires Wf() && i < |txs|
      modifies this`users, this`txs
      ensures Wf()
      ensures ok <==> old(Admissible(t))
      ensures ok ==> txs == old(txs)[i := t] && |users| == |old(users)|
      ensures ok ==> forall v :: 0 <= v < |users| ==>
        users[v] == old(users[v]).(balance := old(users[v].balance) - Delta(old(txs[i]), v) + Delta(t, v))
      ensures ok && t == old(txs[i]) ==> users == old(users)
      ensures !ok ==> txs == old(txs) && users == old(users)
      ensures old(Consistent()) ==> Consistent()
      ensures old(Conserved()) ==> Conserved()
    {
      ok := Admissible(t);
      if !ok {
        return;
      }
      var o := txs[i];
      ghost var txs0, users0 := txs, users;
      txs := txs[i := t];
      ApplyRow(o, true);
      ApplyRow(t, false);
      if t == o {
        assert forall v :: 0 <= v < |users| ==> users[v] == users0[v];
      }
      NetReplaceAll(txs0, i, t, users0, users);
    }

    /** DELETE of row `i`, firing `update_balance_delete`: the row's effect is reversed. */
    method Delete(i: nat)
      requires Wf() && i < |txs|
      modifies this`users, this`txs
      ensures Wf()
      ensures txs == old(txs)[..i] + old(txs)[i + 1..] && |users| == |old(users)|
      ensures forall v :: 0 <= v < |users| ==>
        users[v] == old(users[v]).(balance := old(users[v].balance) - Delta(old(txs[i]), v))
      ensures old(Consistent()) ==> Consistent()
      ensures old(Conserved()) ==> Conserved()
    {
      var o := txs[i];
      ghost var txs0, users0 := txs, users;
      txs := txs[..i] + txs[i + 1..];
      assert forall k :: 0 <= k < |txs| ==> txs[k] == txs0[if k < i then k else k + 1];
      ApplyRow(o, true);
      forall v | 0 <= v < |users| ensures users[v].balance - users0[v].balance == Net(txs, v) - Net(txs0, v) {
        NetRemove(txs0, i, v);
      }
    }

    /** INSERT INTO users; the unique name constraint may reject it. */
    method InsertUser(u: User) returns (ok: bool)
      requires Wf()
      modifies this`users
      ensures Wf()
      ensures ok <==> forall v :: 0 <= v < |old(users)| ==> old(users[v].name) != u.name
      ensures users == if ok then old(users) + [u] else old(users)
      ensures old(Consistent()) && u.balance == 0 ==> Consistent()
      ensures old(Conserved()) ==> (Conserved() <==> !ok || u.balance == 0)
    {
      ok := forall v :: 0 <= v < |users| ==> users[v].name != u.name;
      if ok {
        ghost var users0 := users;
        users := users + [u];
        assert users[..|users| - 1] == users0;
        RowsAdmissibleGrow(txs, old(Sizes()), Sizes());
        NetOfUnreferenced(txs, |users0|);
      }
    }

    /** INSERT INTO agents; the unique name constraint may reject it. */
    method InsertAgent(a: Agent) returns (ok: bool)
      requires Wf()
      modifies this`agents
      ensures Wf()
      ensures ok <==> forall k :: 0 <= k < |old(agents)| ==> old(agents[k].name) != a.name
      ensures agents == if ok then old(agents) + [a] else old(agents)
    {
      ok := forall k :: 0 <= k < |agents| ==> agents[k].name != a.name;
      if ok {
        agents := agents + [a];
        RowsAdmissibleGrow(txs, old(Sizes()), Sizes());
      }
    }

    /**
     * INSERT INTO tags; the foreign key on `parent_id` and UNIQUE (name,
     * parent_id) may reject it (two root tags with one name clash here; see
     * `SqlTagsUnique` for what an SQL store does instead).
     */
    method InsertTag(t: Tag) returns (ok: bool)
      requires Wf()
      modifies this`tags
      ensures Wf()
      ensures ok <==> (t.parent.None? || t.parent.value < |old(tags)|)
                      && forall k :: 0 <= k < |old(tags)| ==> !(old(tags[k].name) == t.name && old(tags[k].parent) == t.parent)
      ensures tags == if ok then old(tags) + [t] else old(tags)
    {
      ok := (t.parent.None? || t.parent.value < |tags|)
            && forall k :: 0 <= k < |tags| ==> !(tags[k].name == t.name && tags[k].parent == t.parent);
      if ok {
        tags := tags + [t];
        RowsAdmissibleGrow(txs, old(Sizes()), Sizes());
      }
    }

    /** Commits tags added in a session: the table only grows and keeps its constraints. */
    method CommitTags(newTags: seq<Tag>)
      requires Wf()
      requires |tags| <= |newTags| && newTags[..|tags|] == tags
      requires TagsUnique(newTags) && TagsAcyclic(newTags)
      modifies this`tags
      ensures Wf()
      ensures tags == newTags
    {
      tags := newTags;
      RowsAdmissibleGrow(txs, old(Sizes()), Sizes());
    }

    /** INSERT INTO standing_orders; the CHECK, foreign-key and unique constraints may reject it. */
    method InsertOrder(o: StandingOrder) returns (ok: bool)
      requires Wf()
      modifies this`orders
      ensures Wf()
      ensures ok <==> OrderAdmissible(o, |users|)
                      && forall k :: 0 <= k < |old(orders)| ==> !(old(orders[k].name) == o.name && old(orders[k].userFrom) == o.userFrom)
      ensures orders == if ok then old(orders) + [o] else old(orders)
    {
      ok := OrderAdmissible(o, |users|) && forall k :: 0 <= k < |orders| ==> !(orders[k].name == o.name && orders[k].userFrom == o.userFrom);
      if ok {
        orders := orders + [o];
        RowsAdmissibleGrow(txs, old(Sizes()), Sizes());
      }
    }

    /** `UPDATE standing_orders SET dt_next_utc = next WHERE id = k`. */
    method SetOrderNext(k: nat, next: Option<int>)
      requires Wf() && k < |orders|
      modifies this`orders
      ensures Wf()
      ensures orders == old(orders)[k := old(orders[k]).(dtNext := next)]
    {
      orders := orders[k := orders[k].(dtNext := next)];
    }
  }

  /** Every constraint of the schema holds on these tables (tags in insertion order, so acyclic). */
  predicate StoreWf(users: seq<User>, currencies: seq<Currency>, agents: seq<Agent>, tags: seq<Tag>,
                    orders: seq<StandingOrder>, txs: seq<Transaction>) {
    && UserNamesUnique(users)
    && CurrencyCodesUnique(currencies)
    && AgentNamesUnique(agents)
    && TagsUnique(tags) && TagsAcyclic(tags)
    && OrderNamesUnique(orders) && OrdersAdmissible(orders, |users|)
    && RowsAdmissible(txs, Schema.Sizes(|users|, |currencies|, |orders|, |agents|, |tags|))
  }

  /** `users` is `users0` with every balance credited with its net over `rows`. */
  ghost predicate Credited(users0: seq<User>, users: seq<User>, rows: seq<Transaction>) {
    && |users| == |users0|
    && forall v :: 0 <= v < |users| ==> users[v] == users0[v].(balance := users0[v].balance + Net(rows, v))
  }

  /** Crediting one more row's delta extends `Credited` by that row. */
  lemma CreditedSnoc(users0: seq<User>, mid: seq<User>, users: seq<User>, rows: seq<Transaction>, t: Transaction)
    requires Credited(users0, mid, rows) && |users| == |mid|
    requires forall v :: 0 <= v < |users| ==> users[v] == mid[v].(balance := mid[v].balance + Delta(t, v))
    ensures Credited(users0, users, rows + [t])
  {
    forall v | 0 <= v < |users| ensures Net(rows + [t], v) == Net(rows, v) + Delta(t, v) {
      NetSnoc(rows, t, v);
    }
  }

  /** Crediting two batches of rows in turn credits their concatenation. */
  lemma CreditedAppend(users0: seq<User>, mid: seq<User>, users: seq<User>, a: seq<Transaction>, b: seq<Transaction>)
    requires Credited(users0, mid, a) && Credited(mid, users, b)
    ensures Credited(users0, users, a + b)
  {
    forall v | 0 <= v < |users| ensures Net(a + b, v) == Net(a, v) + Net(b, v) {
      NetAppend(a, b, v);
    }
  }

  /** Appending one row adds its delta to every user's net. */
  lemma NetSnocAll(txs: seq<Transaction>, t: Transaction, users0: seq<User>, users: seq<User>)
    requires |users| == |users0|
    requires forall v :: 0 <= v < |users| ==> users[v].balance == users0[v].balance + Delta(t, v)
    ensures (forall v :: 0 <= v < |users0| ==> users0[v].balance == Net(txs, v))
            ==> forall v :: 0 <= v < |users| ==> users[v].balance == Net(txs + [t], v)
  {
    forall v | 0 <= v < |users| ensures Net(txs + [t], v) == Net(txs, v) + Delta(t, v) {
      NetAppend(txs, [t], v);
      NetSingle(t, v);
    }
  }

  /** Replacing row `i` changes every user's net by the new row's delta minus the old one's. */
  lemma NetReplaceAll(txs: seq<Transaction>, i: nat, t: Transaction, users0: seq<User>, users: seq<User>)
    requires i < |txs| && |users| == |users0|
    requires forall v :: 0 <= v < |users| ==> users[v].balance == users0[v].balance - Delta(txs[i], v) + Delta(t, v)
    ensures (forall v :: 0 <= v < |users0| ==> users0[v].balance == Net(txs, v))
            ==> forall v :: 0 <= v < |users| ==> users[v].balance == Net(txs[i := t], v)
  {
    forall v | 0 <= v < |users| ensures Net(txs[i := t], v) == Net(txs, v) - Delta(txs[i], v) + Delta(t, v) {
      NetReplace(txs, i, t, v);
    }
  }

  /** A user no row refers to has a net of zero. */
  lemma {:induction false} NetOfUnreferenced(txs: seq<Transaction>, u: nat)
    requires forall k :: 0 <= k < |txs| ==> txs[k].userFrom != u && txs[k].userTo != u
    ensures Net(txs, u) == 0
    decreases |txs|
  {
    if txs != [] {
      NetOfUnreferenced(txs[..|txs| - 1], u);
    }
  }

  /** Inserting a row and then deleting it restores every balance and the table. */
  method InsertThenDelete(db: Database, t: Transaction)
    requires db.Wf()
    modifies db
    ensures db.Wf()
    ensures db.users == old(db.users) && db.txs == old(db.txs)
  {
    var ok := db.Insert(t);
    if ok {
      db.Delete(|db.txs| - 1);
      assert db.txs == old(db.txs);
    }
  }
}
