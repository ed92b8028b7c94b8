/**
 * The relational schema of the ledger (mpay/db.py): one datatype per table
 * row, the CHECK and UNIQUE constraints as predicates, the signed sums the
 * balance invariant is stated with, the derived hierarchical tag name, the
 * currency seeding and the schema-revision check.
 *
 * Money is an integer number of thousandths (the columns are NUMERIC(9, 3));
 * instants are integers on one UTC timeline.
 */
module Schema {
  import opened Common
  import Text

  /** A row of `users`; the user's id is its position in the table. */
  datatype User = User(name: string, balance: int)

  /** A row of `currencies`. */
  datatype Currency = Currency(iso4217: string, name: Option<string>)

  /** A row of `agents`. */
  datatype Agent = Agent(name: string, description: Option<string>)

  /** A row of `tags`; `parent` is the id (position) of the parent tag. */
  datatype Tag = Tag(name: string, description: Option<string>, parent: Option<nat>)

  /** A row of `standing_orders`; `dtNext == None` means disabled or expired. */
  datatype StandingOrder = StandingOrder(
    name: string, userFrom: nat, userTo: nat, amount: int, note: Option<string>,
    rule: string, dtNext: Option<int>, dtCreated: int)

  /**
   * A row of `transactions` together with its `transactions_tags` associations.
   * `userCreated` is nullable only before the migration that backfills it.
   */
  datatype Transaction = Transaction(
    userFrom: nat, userTo: nat, userCreated: Option<nat>,
    originalAmount: Option<int>, originalCurrency: Option<nat>, convertedAmount: int,
    standingOrder: Option<nat>, agent: Option<nat>, note: Option<string>,
    dtCreated: int, dtDue: int, tags: set<nat>)

  // ---------------------------------------------------------------------------
  // CHECK constraints

  /** The three CHECK constraints declared on `transactions`. */
  predicate TransactionChecks(t: Transaction) {
    && (t.originalCurrency.None? <==> t.originalAmount.None?)
    && t.userFrom != t.userTo
    && t.dtDue <= t.dtCreated
  }

  /** The two CHECK constraints the amount-not-negative migration adds to `transactions`. */
  predicate AmountsNotNegative(t: Transaction) {
    t.convertedAmount >= 0 && (t.originalAmount.None? || t.originalAmount.value >= 0)
  }

  /** Everything the current schema demands of one transaction row on its own. */
  predicate TransactionRowOk(t: Transaction) {
    TransactionChecks(t) && AmountsNotNegative(t) && t.userCreated.Some?
  }

  /** The CHECK constraints declared on `standing_orders`. */
  predicate OrderChecks(o: StandingOrder) {
    o.userFrom != o.userTo && o.amount >= 0
  }

  /** The CHECK constraint on `tags` (the tag at position `id` is not its own parent). */
  predicate TagChecks(id: nat, t: Tag) {
    t.parent != Some(id)
  }

  /** The number of rows in each table a transaction row refers to. */
  datatype Sizes = Sizes(users: nat, currencies: nat, orders: nat, agents: nat, tags: nat)

  predicate SizesLe(a: Sizes, b: Sizes) {
    a.users <= b.users && a.currencies <= b.currencies && a.orders <= b.orders
    && a.agents <= b.agents && a.tags <= b.tags
  }

  /** The foreign keys of transaction row `t` resolve in tables of sizes `n`. */
  predicate RowRefsOk(t: Transaction, n: Sizes) {
    && t.userFrom < n.users && t.userTo < n.users
    && (t.userCreated.Some? ==> t.userCreated.value < n.users)
    && (t.originalCurrency.Some? ==> t.originalCurrency.value < n.currencies)
    && (t.standingOrder.Some? ==> t.standingOrder.value < n.orders)
    && (t.agent.Some? ==> t.agent.value < n.agents)
    && (forall g :: g in t.tags ==> g < n.tags)
  }

  /** The store accepts transaction row `t` next to tables of sizes `n`. */
  predicate RowAdmissible(t: Transaction, n: Sizes) {
    TransactionRowOk(t) && RowRefsOk(t, n)
  }

  predicate RowsAdmissible(txs: seq<Transaction>, n: Sizes) {
    forall k :: 0 <= k < |txs| ==> RowAdmissible(txs[k], n)
  }

  /** Tables only grow, so rows that were admissible stay admissible. */
  lemma RowsAdmissibleGrow(txs: seq<Transaction>, a: Sizes, b: Sizes)
    requires RowsAdmissible(txs, a) && SizesLe(a, b)
    ensures RowsAdmissible(txs, b)
  {
    forall k | 0 <= k < |txs| ensures RowAdmissible(txs[k], b) {
      assert RowAdmissible(txs[k], a);
    }
  }

  /** The store accepts standing order `o` next to a user table of `nUsers` rows. */
  predicate OrderAdmissible(o: StandingOrder, nUsers: nat) {
    OrderChecks(o) && o.userFrom < nUsers && o.userTo < nUsers
  }

  predicate OrdersAdmissible(orders: seq<StandingOrder>, nUsers: nat) {
    forall k :: 0 <= k < |orders| ==> OrderAdmissible(orders[k], nUsers)
  }

  // ---------------------------------------------------------------------------
  // UNIQUE constraints

  predicate UserNamesUnique(users: seq<User>) {
    forall i, j :: 0 <= i < j < |users| ==> users[i].name != users[j].name
  }

  predicate CurrencyCodesUnique(cs: seq<Currency>) {
    forall i, j :: 0 <= i < j < |cs| ==> cs[i].iso4217 != cs[j].iso4217
  }

  predicate AgentNamesUnique(agents: seq<Agent>) {
    forall i, j :: 0 <= i < j < |agents| ==> agents[i].name != agents[j].name
  }

  predicate OrderNamesUnique(orders: seq<StandingOrder>) {
    forall i, j :: 0 <= i < j < |orders| ==>
      !(orders[i].name == orders[j].name && orders[i].userFrom == orders[j].userFrom)
  }

  /** UNIQUE (name, parent_id) read as intended: two root tags count as having the same parent. */
  predicate TagsUnique(tags: seq<Tag>) {
    forall i, j :: 0 <= i < j < |tags| ==>
      !(tags[i].name == tags[j].name && tags[i].parent == tags[j].parent)
  }

  /**
   * UNIQUE (name, parent_id) as an SQL store enforces it: a NULL parent_id is
   * distinct from every other value, NULL included, so two root tags never clash.
   */
  predicate SqlTagsUnique(tags: seq<Tag>) {
    forall i, j :: 0 <= i < j < |tags| ==>
      !(tags[i].name == tags[j].name && tags[i].parent.Some? && tags[i].parent == tags[j].parent)
  }

  // ---------------------------------------------------------------------------
  // Lookups by a unique key (`query(...).filter_by(...).one()` / `.one_or_none()`)

  /** The user named `name`. */
  function UserId(users: seq<User>, name: string): (r: Option<nat>)
    ensures r.Some? ==> r.value < |users| && users[r.value].name == name
    ensures r.None? <==> forall v :: 0 <= v < |users| ==> users[v].name != name
    decreases |users|
  {
    if users == [] then None
    else if users[|users| - 1].name == name then Some(|users| - 1)
    else UserId(users[..|users| - 1], name)
  }

  /** With unique names, the lookup finds each user under its own name. */
  lemma UserIdUnique(users: seq<User>, v: nat)
    requires UserNamesUnique(users) && v < |users|
    ensures UserId(users, users[v].name) == Some(v)
  {
  }

  /** The agent named `name`. */
  function AgentId(agents: seq<Agent>, name: string): (r: Option<nat>)
    ensures r.Some? ==> r.value < |agents| && agents[r.value].name == name
    ensures r.None? <==> forall k :: 0 <= k < |agents| ==> agents[k].name != name
    decreases |agents|
  {
    if agents == [] then None
    else if agents[|agents| - 1].name == name then Some(|agents| - 1)
    else AgentId(agents[..|agents| - 1], name)
  }

  /** The currency with ISO 4217 code `code`. */
  function CurrencyId(cs: seq<Currency>, code: string): (r: Option<nat>)
    ensures r.Some? ==> r.value < |cs| && cs[r.value].iso4217 == code
    ensures r.None? <==> !HasCode(cs, code)
    decreases |cs|
  {
    if cs == [] then None
    else if cs[|cs| - 1].iso4217 == code then Some(|cs| - 1)
    else
      var front := cs[..|cs| - 1];
      assert forall i :: 0 <= i < |front| ==> front[i] == cs[i];
      CurrencyId(front, code)
  }

  /** The standing order named `name` whose sender is `userFrom`. */
  function OrderId(orders: seq<StandingOrder>, name: string, userFrom: nat): (r: Option<nat>)
    ensures r.Some? ==> r.value < |orders| && orders[r.value].name == name && orders[r.value].userFrom == userFrom
    ensures r.None? <==> forall k :: 0 <= k < |orders| ==> !(orders[k].name == name && orders[k].userFrom == userFrom)
    decreases |orders|
  {
    if orders == [] then None
    else if orders[|orders| - 1].name == name && orders[|orders| - 1].userFrom == userFrom then Some(|orders| - 1)
    else OrderId(orders[..|orders| - 1], name, userFrom)
  }

  // ---------------------------------------------------------------------------
  // The tag tree

  /** Every parent was inserted before its children (so the parent relation has no cycle). */
  predicate TagsAcyclic(tags: seq<Tag>) {
    forall i :: 0 <= i < |tags| && tags[i].parent.Some? ==> tags[i].parent.value < i
  }

  /** `Tag.hierarchical_name`: the "/"-joined names from the root down to tag `id`. */
  function HierarchicalName(tags: seq<Tag>, id: nat): string
    requires TagsAcyclic(tags) && id < |tags|
    decreases id
  {
    match tags[id].parent
    case None => tags[id].name
    case Some(p) => HierarchicalName(tags, p) + "/" + tags[id].name
  }

  /** The names on the path from the root down to tag `id`. */
  function NamePath(tags: seq<Tag>, id: nat): (r: seq<string>)
    requires TagsAcyclic(tags) && id < |tags|
    ensures |r| >= 1 && r[|r| - 1] == tags[id].name
    decreases id
  {
    match tags[id].parent
    case None => [tags[id].name]
    case Some(p) => NamePath(tags, p) + [tags[id].name]
  }

  /** The hierarchical name is the path of names joined with "/". */
  lemma {:induction false} HierarchicalNameIsJoin(tags: seq<Tag>, id: nat)
    requires TagsAcyclic(tags) && id < |tags|
    ensures HierarchicalName(tags, id) == Text.Join(NamePath(tags, id), '/')
    decreases id
  {
    match tags[id].parent
    case None =>
    case Some(p) =>
      HierarchicalNameIsJoin(tags, p);
      Text.JoinSnoc(NamePath(tags, p), tags[id].name, '/');
  }

  /** Appending rows to the tag table does not change the name of an existing tag. */
  lemma {:induction false} HierarchicalNameStable(tags: seq<Tag>, more: seq<Tag>, id: nat)
    requires TagsAcyclic(tags) && TagsAcyclic(tags + more) && id < |tags|
    ensures HierarchicalName(tags + more, id) == HierarchicalName(tags, id)
    decreases id
  {
    assert (tags + more)[id] == tags[id];
    match tags[id].parent
    case None =>
    case Some(p) => HierarchicalNameStable(tags, more, p);
  }

  // ---------------------------------------------------------------------------
  // Signed sums over the transaction table

  /** The balance change a transaction row causes for user `u`. */
  function Delta(t: Transaction, u: nat): int {
    (if t.userTo == u then t.convertedAmount else 0) - (if t.userFrom == u then t.convertedAmount else 0)
  }

  /** Sum of `converted_amount` over the rows with `user_to == u`. */
  function Incoming(txs: seq<Transaction>, u: nat): int {
    if txs == [] then 0
    else Incoming(txs[..|txs| - 1], u) + (if txs[|txs| - 1].userTo == u then txs[|txs| - 1].convertedAmount else 0)
  }

  /** Sum of `converted_amount` over the rows with `user_from == u`. */
  function Outgoing(txs: seq<Transaction>, u: nat): int {
    if txs == [] then 0
    else Outgoing(txs[..|txs| - 1], u) + (if txs[|txs| - 1].userFrom == u then txs[|txs| - 1].convertedAmount else 0)
  }

  /** Incoming minus outgoing: what user `u`'s balance must be. */
  function Net(txs: seq<Transaction>, u: nat): int {
    Incoming(txs, u) - Outgoing(txs, u)
  }

  /** Net over a concatenation is the sum of the nets. */
  lemma {:induction false} NetAppend(a: seq<Transaction>, b: seq<Transaction>, u: nat)
    ensures Net(a + b, u) == Net(a, u) + Net(b, u)
    decreases |b|
  {
    if b == [] {
      assert a + b == a;
    } else {
      var b' := b[..|b| - 1];
      assert (a + b)[..|a + b| - 1] == a + b';
      NetAppend(a, b', u);
    }
  }

  /** Appending one row adds its delta. */
  lemma NetSnoc(txs: seq<Transaction>, t: Transaction, u: nat)
    ensures Net(txs + [t], u) == Net(txs, u) + Delta(t, u)
  {
    assert (txs + [t])[..|txs|] == txs;
  }

  lemma NetSingle(t: Transaction, u: nat)
    ensures Net([t], u) == Delta(t, u)
  {
    assert [t][..0] == [];
    assert Incoming([t], u) == Incoming([], u) + (if t.userTo == u then t.convertedAmount else 0);
    assert Outgoing([t], u) == Outgoing([], u) + (if t.userFrom == u then t.convertedAmount else 0);
  }

  /** Net after replacing row `i` differs by the two rows' deltas. */
  lemma NetReplace(txs: seq<Transaction>, i: nat, t: Transaction, u: nat)
    requires i < |txs|
    ensures Net(txs[i := t], u) == Net(txs, u) - Delta(txs[i], u) + Delta(t, u)
  {
    assert txs == txs[..i] + [txs[i]] + txs[i + 1..];
    assert txs[i := t] == txs[..i] + [t] + txs[i + 1..];
    NetAppend(txs[..i] + [txs[i]], txs[i + 1..], u);
    NetAppend(txs[..i], [txs[i]], u);
    NetAppend(txs[..i] + [t], txs[i + 1..], u);
    NetAppend(txs[..i], [t], u);
    NetSingle(txs[i], u);
    NetSingle(t, u);
  }

  /** Net after removing row `i` loses that row's delta. */
  lemma NetRemove(txs: seq<Transaction>, i: nat, u: nat)
    requires i < |txs|
    ensures Net(txs[..i] + txs[i + 1..], u) == Net(txs, u) - Delta(txs[i], u)
  {
    assert txs == txs[..i] + [txs[i]] + txs[i + 1..];
    NetAppend(txs[..i] + [txs[i]], txs[i + 1..], u);
    NetAppend(txs[..i], [txs[i]], u);
    NetAppend(txs[..i], txs[i + 1..], u);
    NetSingle(txs[i], u);
  }

  /** Sum of the balances of all users. */
  function BalanceSum(users: seq<User>): int {
    if users == [] then 0 else BalanceSum(users[..|users| - 1]) + users[|users| - 1].balance
  }

  /** Changing one user's balance changes the sum by the same amount. */
  lemma {:induction false} BalanceSumUpdate(users: seq<User>, i: nat, x: User)
    requires i < |users|
    ensures BalanceSum(users[i := x]) == BalanceSum(users) - users[i].balance + x.balance
    decreases |users|
  {
    var n := |users| - 1;
    var users' := users[i := x];
    assert users'[..n] == if i < n then users[..n][i := x] else users[..n];
    if i < n {
      BalanceSumUpdate(users[..n], i, x);
    }
  }

  /** Sum of `Net(txs, u)` over the users `u < n`. */
  function NetTotal(txs: seq<Transaction>, n: nat): int {
    if n == 0 then 0 else NetTotal(txs, n - 1) + Net(txs, n - 1)
  }

  /** Sum over the users `u < n` of the deltas of one row. */
  function DeltaTotal(t: Transaction, n: nat): int {
    if n == 0 then 0 else DeltaTotal(t, n - 1) + Delta(t, n - 1)
  }

  lemma {:induction false} DeltaTotalValue(t: Transaction, n: nat)
    ensures DeltaTotal(t, n) == (if t.userTo < n then t.convertedAmount else 0)
                               - (if t.userFrom < n then t.convertedAmount else 0)
  {
    if n > 0 {
      DeltaTotalValue(t, n - 1);
    }
  }

  lemma {:induction false} NetTotalSnoc(txs: seq<Transaction>, t: Transaction, n: nat)
    ensures NetTotal(txs + [t], n) == NetTotal(txs, n) + DeltaTotal(t, n)
  {
    if n > 0 {
      NetTotalSnoc(txs, t, n - 1);
      NetAppend(txs, [t], n - 1);
      NetSingle(t, n - 1);
    }
  }

  /** Conservation: every row moves money between two of the users `< n`, so their nets sum to zero. */
  lemma {:induction false} NetTotalZero(txs: seq<Transaction>, n: nat)
    requires forall k :: 0 <= k < |txs| ==> txs[k].userFrom < n && txs[k].userTo < n
    ensures NetTotal(txs, n) == 0
    decreases |txs|
  {
    if txs == [] {
      NetTotalEmpty(n);
    } else {
      var front := txs[..|txs| - 1];
      NetTotalZero(front, n);
      assert front + [txs[|txs| - 1]] == txs;
      NetTotalSnoc(front, txs[|txs| - 1], n);
      DeltaTotalValue(txs[|txs| - 1], n);
    }
  }

  lemma {:induction false} NetTotalEmpty(n: nat)
    ensures NetTotal([], n) == 0
  {
    if n > 0 {
      NetTotalEmpty(n - 1);
    }
  }

  /** When every balance equals its net, the balance sum is the net total. */
  lemma {:induction false} BalanceSumIsNetTotal(users: seq<User>, txs: seq<Transaction>)
    requires forall u :: 0 <= u < |users| ==> users[u].balance == Net(txs, u)
    ensures BalanceSum(users) == NetTotal(txs, |users|)
    decreases |users|
  {
    if users != [] {
      BalanceSumIsNetTotal(users[..|users| - 1], txs);
    }
  }

  // ---------------------------------------------------------------------------
  // Currency seeding (`setup_database`)

  const DefaultCurrencies: seq<Currency> :=
    [Currency("USD", Some("United States dollar")), Currency("EUR", Some("Euro"))]

  /** Number of rows with ISO code `code`. */
  function CodeCount(cs: seq<Currency>, code: string): nat {
    if cs == [] then 0
    else CodeCount(cs[..|cs| - 1], code) + (if cs[|cs| - 1].iso4217 == code then 1 else 0)
  }

  predicate HasCode(cs: seq<Currency>, code: string) {
    exists i :: 0 <= i < |cs| && cs[i].iso4217 == code
  }

  /** `INSERT OR IGNORE` of one row against the unique `iso_4217` column. */
  function InsertOrIgnore(cs: seq<Currency>, c: Currency): (r: seq<Currency>)
    ensures |cs| <= |r| && r[..|cs|] == cs
    ensures HasCode(r, c.iso4217)
    ensures forall code :: HasCode(cs, code) ==> HasCode(r, code)
    ensures CurrencyCodesUnique(cs) ==> CurrencyCodesUnique(r)
  {
    if HasCode(cs, c.iso4217) then cs
    else
      var r := cs + [c];
      assert r[|cs|].iso4217 == c.iso4217;
      forall code | HasCode(cs, code) ensures HasCode(r, code) {
        var i :| 0 <= i < |cs| && cs[i].iso4217 == code;
        assert r[i].iso4217 == code;
      }
      r
  }

  /** The currency seeding step of `setup_database`. */
  function SeedCurrencies(cs: seq<Currency>): (r: seq<Currency>)
    ensures |cs| <= |r| && r[..|cs|] == cs
    ensures CurrencyCodesUnique(cs) ==> CurrencyCodesUnique(r)
    ensures HasCode(r, "USD") && HasCode(r, "EUR")
  {
    InsertOrIgnore(InsertOrIgnore(cs, DefaultCurrencies[0]), DefaultCurrencies[1])
  }

  lemma {:induction false} CodeCountUnique(cs: seq<Currency>, code: string)
    requires CurrencyCodesUnique(cs)
    ensures CodeCount(cs, code) == (if HasCode(cs, code) then 1 else 0)
    decreases |cs|
  {
    if cs != [] {
      var front := cs[..|cs| - 1];
      CodeCountUnique(front, code);
      if HasCode(front, code) {
        var i :| 0 <= i < |front| && front[i].iso4217 == code;
        assert cs[i].iso4217 == code;
      }
      if HasCode(cs, code) && cs[|cs| - 1].iso4217 != code {
        var i :| 0 <= i < |cs| && cs[i].iso4217 == code;
        assert front[i].iso4217 == code;
      }
    }
  }

  /** Seeding twice is seeding once, and leaves USD and EUR present exactly once. */
  lemma SeedCurrenciesIdempotent(cs: seq<Currency>)
    requires CurrencyCodesUnique(cs)
    ensures SeedCurrencies(SeedCurrencies(cs)) == SeedCurrencies(cs)
    ensures CodeCount(SeedCurrencies(cs), "USD") == 1 && CodeCount(SeedCurrencies(cs), "EUR") == 1
  {
    CodeCountUnique(SeedCurrencies(cs), "USD");
    CodeCountUnique(SeedCurrencies(cs), "EUR");
  }

  // ---------------------------------------------------------------------------
  // Schema revisions (`check_revision`)

  /** The migration chain: each revision and the revision it revises. */
  const DownRevision: map<string, Option<string>> := map[
    "c7250639e926" := None,
    "6fb1631eadba" := Some("c7250639e926"),
    "931cbe1524ae" := Some("6fb1631eadba")]

  /** A head is a known revision that no other revision revises. */
  predicate IsHead(rev: string) {
    rev in DownRevision && forall r :: r in DownRevision ==> DownRevision[r] != Some(rev)
  }

  const HeadRevision := "931cbe1524ae"

  /** `check_revision`: the store's recorded revision is the head of the chain. */
  function CheckRevision(current: Option<string>): (r: bool)
    ensures r <==> (current.Some? && IsHead(current.value))
  {
    assert !IsHead("c7250639e926") by { assert DownRevision["6fb1631eadba"] == Some("c7250639e926"); }
    assert !IsHead("6fb1631eadba") by { assert DownRevision["931cbe1524ae"] == Some("6fb1631eadba"); }
    current == Some(HeadRevision)
  }
}
