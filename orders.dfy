/**
 * Standing orders (mpay/mpay.py `create_order`, `disable_order`,
 * `_execute_order`, `execute_orders`). An order's `dtNext` is the due instant
 * of its next payment; `None` means disabled or expired and never changes
 * back. The recurrence rule's `after(dt)` is a parameter: the first occurrence
 * strictly after `dt`, or `None` when the rule has no more.
 */
module Orders {
  import opened Common
  import opened Schema
  import opened Names
  import opened Ledger

  /** `rrule.after`: the occurrence of rule `rule` that follows instant `t`. */
  type Recurrence = (string, int) -> Option<int>

  predicate Increasing(s: seq<int>) {
    forall i, j :: 0 <= i < j < |s| ==> s[i] < s[j]
  }

  /** The recurrence never goes back nor stands still. */
  ghost predicate Monotone(after: Recurrence) {
    forall rule, t :: after(rule, t).None? || after(rule, t).value > t
  }

  /** The measure that bounds the catch-up loop: the instants left up to `now`. */
  function Pending(dt: Option<int>, now: int): nat {
    if dt.Some? && dt.value <= now then now - dt.value + 1 else 0
  }

  /**
   * What `_execute_order`'s loop does to an order whose next due instant is
   * `dt`: the due instants it pays, in order, and the `dtNext` it leaves.
   */
  function Catchup(rule: string, dt: Option<int>, now: int, after: Recurrence): Result<(seq<int>, Option<int>), Error>
    decreases Pending(dt, now)
  {
    if dt.None? || dt.value > now then Ok(([], dt))
    else
      var n := after(rule, dt.value);
      if n.Some? && n.value <= dt.value then Err(NotMonotonic)
      else
        match Catchup(rule, n, now, after)
        case Err(e) => Err(e)
        case Ok((dues, next)) => Ok(([dt.value] + dues, next))
  }

  /**
   * The catch-up pays a chain of occurrences: it starts at `dt` when that is
   * due, each instant is followed by its `after`, all are at most `now`, and
   * the `dtNext` it leaves is `None` or after `now`. It fails only when the
   * recurrence does not move forward.
   */
  lemma {:induction false} CatchupShape(rule: string, dt: Option<int>, now: int, after: Recurrence)
    ensures var r := Catchup(rule, dt, now, after);
      r.Err? ==> r == Err(NotMonotonic)
    ensures var r := Catchup(rule, dt, now, after);
      r.Ok? ==>
      var (dues, next) := r.value;
      && Increasing(dues)
      && (forall i :: 0 <= i < |dues| ==> dues[i] <= now)
      && (dues != [] <==> dt.Some? && dt.value <= now)
      && (dues != [] ==> dues[0] == dt.value && after(rule, dues[|dues| - 1]) == next)
      && (dues == [] ==> next == dt)
      && (forall i :: 0 <= i < |dues| - 1 ==> after(rule, dues[i]) == Some(dues[i + 1]))
      && (next.None? || next.value > now)
    decreases Pending(dt, now)
  {
    if dt.Some? && dt.value <= now {
      var n := after(rule, dt.value);
      if n.None? || n.value > dt.value {
        CatchupShape(rule, n, now, after);
        var r := Catchup(rule, n, now, after);
        if r.Ok? {
          var (rest, next) := r.value;
          var dues := [dt.value] + rest;
          assert Catchup(rule, dt, now, after) == Ok((dues, next));
          assert rest != [] ==> rest[0] == n.value;
          forall i, j | 0 <= i < j < |dues| ensures dues[i] < dues[j] {
            if i > 0 {
              assert dues[i] == rest[i - 1] && dues[j] == rest[j - 1];
            } else {
              assert dues[j] == rest[j - 1];
            }
          }
          forall i | 0 <= i < |dues| - 1 ensures after(rule, dues[i]) == Some(dues[i + 1]) {
            if i > 0 {
              assert dues[i] == rest[i - 1] && dues[i + 1] == rest[i];
            }
          }
        }
      }
    }
  }

  /** One turn of the catch-up loop: the due instant is paid and the rest follows from its successor. */
  lemma CatchupStep(rule: string, dt: int, now: int, after: Recurrence, rest: seq<int>, next: Option<int>)
    requires dt <= now
    requires after(rule, dt).None? || after(rule, dt).value > dt
    requires Catchup(rule, after(rule, dt), now, after) == Ok((rest, next))
    ensures Catchup(rule, Some(dt), now, after) == Ok(([dt] + rest, next))
  {
  }

  /** A due instant whose successor moves forward is paid before the rest of the catch-up. */
  lemma CatchupUnfold(rule: string, due: int, now: int, after: Recurrence)
    requires due <= now
    requires after(rule, due).None? || after(rule, due).value > due
    ensures Catchup(rule, Some(due), now, after) == Prepend([due], Catchup(rule, after(rule, due), now, after))
  {
  }

  /** A due instant whose successor does not move forward makes the catch-up fail. */
  lemma CatchupStuck(rule: string, due: int, now: int, after: Recurrence)
    requires due <= now
    requires after(rule, due).Some? && after(rule, due).value <= due
    ensures Catchup(rule, Some(due), now, after) == Err(NotMonotonic)
  {
  }

  /** Adds the instants already paid in front of the rest of a catch-up. */
  function Prepend(paid: seq<int>, r: Result<(seq<int>, Option<int>), Error>): Result<(seq<int>, Option<int>), Error> {
    match r
    case Err(e) => Err(e)
    case Ok((dues, next)) => Ok((paid + dues, next))
  }

  lemma PrependNothing(r: Result<(seq<int>, Option<int>), Error>)
    ensures Prepend([], r) == r
  {
    if r.Ok? {
      assert [] + r.value.0 == r.value.0;
    }
  }

  lemma PrependAssoc(a: seq<int>, b: seq<int>, r: Result<(seq<int>, Option<int>), Error>)
    ensures Prepend(a, Prepend(b, r)) == Prepend(a + b, r)
  {
    if r.Ok? {
      assert a + (b + r.value.0) == a + b + r.value.0;
    }
  }

  /** With a recurrence that moves strictly forward, catching up never fails. */
  lemma {:induction false} CatchupMonotone(rule: string, dt: Option<int>, now: int, after: Recurrence)
    requires Monotone(after)
    ensures Catchup(rule, dt, now, after).Ok?
    decreases Pending(dt, now)
  {
    if dt.Some? && dt.value <= now {
      var n := after(rule, dt.value);
      assert n.None? || n.value > dt.value;
      CatchupMonotone(rule, n, now, after);
    }
  }

  /** Catching up leaves nothing due: a second run at the same instant pays nothing. */
  lemma CatchupIdempotent(rule: string, dt: Option<int>, now: int, after: Recurrence)
    requires Catchup(rule, dt, now, after).Ok?
    ensures Catchup(rule, Catchup(rule, dt, now, after).value.1, now, after) == Ok(([], Catchup(rule, dt, now, after).value.1))
  {
    CatchupShape(rule, dt, now, after);
  }

  /**
   * Catching up to `now1` and then to a later `now2` pays the same instants
   * and leaves the same `dtNext` as catching up to `now2` at once.
   */
  lemma {:induction false} CatchupSplit(rule: string, dt: Option<int>, now1: int, now2: int, after: Recurrence)
    requires now1 <= now2
    requires Catchup(rule, dt, now1, after).Ok?
    ensures Catchup(rule, dt, now2, after)
         == Prepend(Catchup(rule, dt, now1, after).value.0, Catchup(rule, Catchup(rule, dt, now1, after).value.1, now2, after))
    decreases Pending(dt, now1)
  {
    var first := Catchup(rule, dt, now1, after).value;
    if dt.None? || dt.value > now1 {
      PrependNothing(Catchup(rule, dt, now2, after));
    } else {
      var n := after(rule, dt.value);
      CatchupSplit(rule, n, now1, now2, after);
      var rest := Catchup(rule, n, now1, after).value;
      assert first == ([dt.value] + rest.0, rest.1);
      PrependAssoc([dt.value], rest.0, Catchup(rule, rest.1, now2, after));
    }
  }

  // ---------------------------------------------------------------------------
  // The payments of an order

  /** The transaction `_execute_order` adds for order `o` (id `k`) due at `due`, created at `now`. */
  function OrderPayment(o: StandingOrder, k: nat, due: int, now: int): (t: Transaction)
    ensures t.userFrom == o.userFrom && t.userTo == o.userTo && t.convertedAmount == o.amount
    ensures t.standingOrder == Some(k) && t.dtDue == due && t.userCreated == Some(o.userFrom)
  {
    Transaction(o.userFrom, o.userTo, Some(o.userFrom), None, None, o.amount, Some(k), None, None, now, due, {})
  }

  function Payments(o: StandingOrder, k: nat, dues: seq<int>, now: int): (r: seq<Transaction>)
    ensures |r| == |dues|
    ensures forall i :: 0 <= i < |dues| ==> r[i] == OrderPayment(o, k, dues[i], now)
  {
    if dues == [] then [] else Payments(o, k, dues[..|dues| - 1], now) + [OrderPayment(o, k, dues[|dues| - 1], now)]
  }

  /** Paying `n` instants moves `n` times the amount from the sender to the recipient. */
  lemma {:induction false} PaymentsNet(o: StandingOrder, k: nat, dues: seq<int>, now: int, v: nat)
    requires o.userFrom != o.userTo
    ensures Net(Payments(o, k, dues, now), v)
         == if v == o.userTo then |dues| * o.amount else if v == o.userFrom then -(|dues| * o.amount) else 0
    decreases |dues|
  {
    if dues == [] {
      assert Payments(o, k, dues, now) == [];
    } else {
      var front := dues[..|dues| - 1];
      var t := OrderPayment(o, k, dues[|dues| - 1], now);
      PaymentsNet(o, k, front, now, v);
      assert Payments(o, k, dues, now) == Payments(o, k, front, now) + [t];
      NetSnoc(Payments(o, k, front, now), t, v);
      MulSucc(|front|, o.amount);
    }
  }

  lemma MulSucc(n: nat, a: int)
    ensures (n + 1) * a == n * a + a
  {
  }

  // ---------------------------------------------------------------------------
  // _execute_order

  /**
   * `_execute_order` on order `k`: every instant the catch-up pays becomes a
   * transaction (firing the balance trigger) and `dtNext` ends where the
   * catch-up leaves it; a recurrence that fails to move forward raises and
   * nothing of this order is committed.
   */
  method ExecuteOrder(db: Database, k: nat, now: int, after: Recurrence) returns (r: Outcome<Error>)
    requires db.Wf() && k < |db.orders|
    modifies db`users, db`txs, db`orders
    ensures db.Wf()
    ensures var c := Catchup(old(db.orders[k].rule), old(db.orders[k].dtNext), now, after);
      && (r.Pass? <==> c.Ok?)
      && (c.Err? ==> r == Fail(c.error) && db.users == old(db.users) && db.txs == old(db.txs) && db.orders == old(db.orders))
      && (c.Ok? ==>
           && db.orders == old(db.orders)[k := old(db.orders[k]).(dtNext := c.value.1)]
           && db.txs == old(db.txs) + Payments(old(db.orders[k]), k, c.value.0, now)
           && |db.users| == |old(db.users)|
           && forall v :: 0 <= v < |db.users| ==>
                db.users[v] == old(db.users[v]).(balance := old(db.users[v].balance) + Net(Payments(old(db.orders[k]), k, c.value.0, now), v)))
    ensures old(db.Consistent()) ==> db.Consistent()
    ensures old(db.Conserved()) ==> db.Conserved()
  {
    var users0, txs0, orders0 := db.users, db.txs, db.orders;
    var stuck := RunOrder(db, k, now, after);
    if stuck {
      db.users, db.txs, db.orders := users0, txs0, orders0;
      return Fail(NotMonotonic);
    }
    return Pass;
  }

  /** The loop of `_execute_order`, without the rollback that follows a failed recurrence. */
  method RunOrder(db: Database, k: nat, now: int, after: Recurrence) returns (stuck: bool)
    requires db.Wf() && k < |db.orders|
    modifies db`users, db`txs, db`orders
    ensures db.Wf()
    ensures var c := Catchup(old(db.orders[k].rule), old(db.orders[k].dtNext), now, after);
      && (stuck <==> c.Err?)
      && (c.Err? ==> c.error == NotMonotonic)
      && (c.Ok? ==>
           && db.orders == old(db.orders)[k := old(db.orders[k]).(dtNext := c.value.1)]
           && db.txs == old(db.txs) + Payments(old(db.orders[k]), k, c.value.0, now)
           && |db.users| == |old(db.users)|
           && forall v :: 0 <= v < |db.users| ==>
                db.users[v] == old(db.users[v]).(balance := old(db.users[v].balance) + Net(Payments(old(db.orders[k]), k, c.value.0, now), v)))
    ensures old(db.Consistent()) ==> db.Consistent()
    ensures old(db.Conserved()) ==> db.Conserved()
  {
    var o := db.orders[k];
    var dt := o.dtNext;
    ghost var users0, txs0, orders0 := db.users, db.txs, db.orders;
    ghost var paid: seq<int> := [];
    PrependNothing(Catchup(o.rule, dt, now, after));
    assert orders0 == orders0[k := o.(dtNext := dt)];
    assert Payments(o, k, [], now) == [] && txs0 + [] == txs0;
    forall v | 0 <= v < |db.users| ensures Net([], v) == 0 {
      NetOfUnreferenced([], v);
    }
    while dt.Some? && dt.value <= now
      invariant db.Wf() && k < |db.orders|
      invariant Catchup(o.rule, o.dtNext, now, after) == Prepend(paid, Catchup(o.rule, dt, now, after))
      invariant Paid(users0, txs0, orders0, db.users, db.txs, db.orders, o, k, paid, dt, now)
      invariant old(db.Consistent()) ==> db.Consistent()
      invariant old(db.Conserved()) ==> db.Conserved()
      decreases Pending(dt, now)
    {
      var n;
      n, stuck := StepOrder(db, o, k, dt.value, now, after, paid, users0, txs0, orders0);
      if stuck {
        return;
      }
      PrependAssoc(paid, [dt.value], Catchup(o.rule, n, now, after));
      paid := paid + [dt.value];
      dt := n;
    }
    assert Catchup(o.rule, dt, now, after) == Ok(([], dt));
    assert paid + [] == paid;
    return false;
  }

  /**
   * Where the loop of `_execute_order` stands after paying the instants
   * `paid` of order `o` (id `k`), starting from tables `users0`, `txs0`
   * and `orders0`, with `dt` as the order's next due instant.
   */
  ghost predicate Paid(users0: seq<User>, txs0: seq<Transaction>, orders0: seq<StandingOrder>,
                       users: seq<User>, txs: seq<Transaction>, orders: seq<StandingOrder>,
                       o: StandingOrder, k: nat, paid: seq<int>, dt: Option<int>, now: int) {
    && k < |orders0|
    && orders == orders0[k := o.(dtNext := dt)]
    && txs == txs0 + Payments(o, k, paid, now)
    && Credited(users0, users, Payments(o, k, paid, now))
  }

  /** One turn of `_execute_order`'s loop: pay the instant `due`, then move `dtNext` to its successor. */
  method StepOrder(db: Database, o: StandingOrder, k: nat, due: int, now: int, after: Recurrence,
                   ghost paid: seq<int>, ghost users0: seq<User>, ghost txs0: seq<Transaction>, ghost orders0: seq<StandingOrder>)
      returns (n: Option<int>, stuck: bool)
    requires db.Wf() && due <= now
    requires Paid(users0, txs0, orders0, db.users, db.txs, db.orders, o, k, paid, Some(due), now)
    modifies db`users, db`txs, db`orders
    ensures db.Wf() && k < |db.orders|
    ensures n == after(o.rule, due)
    ensures stuck ==> Catchup(o.rule, Some(due), now, after) == Err(NotMonotonic)
    ensures !stuck ==> && Catchup(o.rule, Some(due), now, after) == Prepend([due], Catchup(o.rule, n, now, after))
                       && Pending(n, now) < Pending(Some(due), now)
                       && Paid(users0, txs0, orders0, db.users, db.txs, db.orders, o, k, paid + [due], n, now)
    ensures old(db.Consistent()) ==> db.Consistent()
    ensures old(db.Conserved()) ==> db.Conserved()
  {
    PayOnce(db, o, k, paid, due, now, users0, txs0);
    n := after(o.rule, due);
    if n.Some? && n.value <= due {
      CatchupStuck(o.rule, due, now, after);
      return n, true;
    }
    CatchupUnfold(o.rule, due, now, after);
    db.SetOrderNext(k, n);
    stuck := false;
  }

  /** One iteration's payment: the row for `due` is inserted and fires the trigger. */
  method PayOnce(db: Database, o: StandingOrder, k: nat, ghost paid: seq<int>, due: int, now: int,
                 ghost users0: seq<User>, ghost txs0: seq<Transaction>)
    requires db.Wf() && k < |db.orders| && db.orders[k] == o.(dtNext := Some(due)) && due <= now
    requires db.txs == txs0 + Payments(o, k, paid, now)
    requires Credited(users0, db.users, Payments(o, k, paid, now))
    modifies db`users, db`txs
    ensures db.Wf()
    ensures db.txs == txs0 + Payments(o, k, paid + [due], now)
    ensures Credited(users0, db.users, Payments(o, k, paid + [due], now))
    ensures old(db.Consistent()) ==> db.Consistent()
    ensures old(db.Conserved()) ==> db.Conserved()
  {
    var t := OrderPayment(o, k, due, now);
    assert OrderAdmissible(db.orders[k], |db.users|);
    ghost var mid := db.users;
    var ok := db.Insert(t);
    assert ok;
    assert (paid + [due])[..|paid|] == paid;
    assert Payments(o, k, paid + [due], now) == Payments(o, k, paid, now) + [t];
    CreditedSnoc(users0, mid, db.users, Payments(o, k, paid, now), t);
  }

  // ---------------------------------------------------------------------------
  // execute_orders

  /** `execute_orders` picks an order whose `dtNext` is strictly before `now`. */
  predicate Selected(o: StandingOrder, now: int) {
    o.dtNext.Some? && o.dtNext.value < now
  }

  /** The `dtNext` order `o` has after a successful `execute_orders` at `now`. */
  function NextAfterRun(o: StandingOrder, now: int, after: Recurrence): (next: Option<int>)
  {
    if Selected(o, now) && Catchup(o.rule, o.dtNext, now, after).Ok? then Catchup(o.rule, o.dtNext, now, after).value.1
    else o.dtNext
  }

  /** After a run that succeeds on `o`, the order is no longer overdue at `now`. */
  lemma NextAfterRunNotOverdue(o: StandingOrder, now: int, after: Recurrence)
    requires Selected(o, now) ==> Catchup(o.rule, o.dtNext, now, after).Ok?
    ensures var next := NextAfterRun(o, now, after); next.None? || next.value >= now
  {
    if Selected(o, now) {
      CatchupShape(o.rule, o.dtNext, now, after);
    }
  }

  /** The transactions `execute_orders` stores for order `o` with id `k`: none unless it is selected and its catch-up succeeds. */
  function OrderRows(o: StandingOrder, k: nat, now: int, after: Recurrence): seq<Transaction> {
    if Selected(o, now) && Catchup(o.rule, o.dtNext, now, after).Ok? then Payments(o, k, Catchup(o.rule, o.dtNext, now, after).value.0, now)
    else []
  }

  /** The transactions of the orders before `k`, in id order. */
  function SweepRows(orders: seq<StandingOrder>, k: nat, now: int, after: Recurrence): seq<Transaction>
    requires k <= |orders|
  {
    if k == 0 then [] else SweepRows(orders, k - 1, now, after) + OrderRows(orders[k - 1], k - 1, now, after)
  }

  /** Every transaction of a sweep pays an order before `k` that was selected, from its sender to its recipient. */
  lemma {:induction false} SweepRowsPaySelected(orders: seq<StandingOrder>, k: nat, now: int, after: Recurrence)
    requires k <= |orders|
    ensures forall t :: t in SweepRows(orders, k, now, after) ==> PaysSelected(orders, k, now, t)
  {
    if k > 0 {
      SweepRowsPaySelected(orders, k - 1, now, after);
      OrderRowsPay(orders[k - 1], k - 1, now, after);
      var front, last := SweepRows(orders, k - 1, now, after), OrderRows(orders[k - 1], k - 1, now, after);
      assert SweepRows(orders, k, now, after) == front + last;
      forall t | t in front + last ensures PaysSelected(orders, k, now, t) {
        if t in front {
          assert PaysSelected(orders, k - 1, now, t);
        } else {
          assert t.standingOrder == Some(k - 1);
        }
      }
    }
  }

  /** Transaction `t` pays one of the first `k` orders, a selected one, from its sender to its recipient. */
  predicate PaysSelected(orders: seq<StandingOrder>, k: nat, now: int, t: Transaction) {
    && t.standingOrder.Some? && t.standingOrder.value < k && t.standingOrder.value < |orders|
    && Selected(orders[t.standingOrder.value], now)
    && t.userFrom == orders[t.standingOrder.value].userFrom && t.userTo == orders[t.standingOrder.value].userTo
  }

  /** The transactions stored for one order all pay that order, which was selected. */
  lemma OrderRowsPay(o: StandingOrder, k: nat, now: int, after: Recurrence)
    ensures forall t :: t in OrderRows(o, k, now, after) ==>
      t.standingOrder == Some(k) && Selected(o, now) && t.userFrom == o.userFrom && t.userTo == o.userTo
  {
    var rows := OrderRows(o, k, now, after);
    forall t: Transaction | t in rows ensures t.standingOrder == Some(k) && Selected(o, now) && t.userFrom == o.userFrom && t.userTo == o.userTo {
      var i :| 0 <= i < |rows| && rows[i] == t;
    }
  }

  /**
   * `execute_orders` has visited the orders before `k`: every selected one
   * among them succeeded and moved to its catch-up instant, and nothing
   * else differs from `orders0`.
   */
  ghost predicate SweptUpTo(orders0: seq<StandingOrder>, orders: seq<StandingOrder>, k: nat, now: int, after: Recurrence) {
    && k <= |orders0| == |orders|
    && (forall j :: 0 <= j < k && Selected(orders0[j], now) ==> Catchup(orders0[j].rule, orders0[j].dtNext, now, after).Ok?)
    && (forall j :: 0 <= j < k ==> orders[j] == orders0[j].(dtNext := NextAfterRun(orders0[j], now, after)))
    && (forall j :: k <= j < |orders| ==> orders[j] == orders0[j])
  }

  /** One turn of `execute_orders`: order `k` is executed when it is selected, and left alone otherwise. */
  method VisitOrder(db: Database, k: nat, now: int, after: Recurrence) returns (r: Outcome<Error>)
    requires db.Wf() && k < |db.orders|
    modifies db`users, db`txs, db`orders
    ensures db.Wf()
    ensures var o := old(db.orders[k]);
      && (r.Fail? <==> Selected(o, now) && Catchup(o.rule, o.dtNext, now, after).Err?)
      && (r.Pass? ==> db.orders == old(db.orders)[k := o.(dtNext := NextAfterRun(o, now, after))])
      && (r.Fail? ==> db.orders == old(db.orders))
    ensures r.Pass? ==> && db.txs == old(db.txs) + OrderRows(old(db.orders[k]), k, now, after)
                        && Credited(old(db.users), db.users, OrderRows(old(db.orders[k]), k, now, after))
    ensures r.Fail? ==> db.txs == old(db.txs) && db.users == old(db.users)
    ensures old(db.Consistent()) ==> db.Consistent()
    ensures old(db.Conserved()) ==> db.Conserved()
  {
    if Selected(db.orders[k], now) {
      r := ExecuteOrder(db, k, now, after);
    } else {
      assert db.orders == db.orders[k := db.orders[k]];
      assert db.txs + [] == db.txs;
      r := Pass;
    }
  }

  /**
   * `execute_orders`: each selected order is executed and committed in turn,
   * in id order; the first recurrence failure raises, keeping the orders
   * already committed. An order that is disabled, expired, or due at `now`
   * or later is not touched.
   */
  method ExecuteOrders(db: Database, now: int, after: Recurrence) returns (r: Outcome<Error>)
    requires db.Wf()
    modifies db`users, db`txs, db`orders
    ensures db.Wf()
    ensures |db.orders| == |old(db.orders)|
    ensures forall k :: 0 <= k < |db.orders| ==> db.orders[k] == old(db.orders[k]).(dtNext := db.orders[k].dtNext)
    ensures forall k :: 0 <= k < |db.orders| && !Selected(old(db.orders[k]), now) ==> db.orders[k] == old(db.orders[k])
    ensures r.Pass? <==> forall k :: 0 <= k < |old(db.orders)| && Selected(old(db.orders[k]), now) ==>
                           Catchup(old(db.orders[k].rule), old(db.orders[k].dtNext), now, after).Ok?
    ensures r.Pass? ==> forall k :: 0 <= k < |db.orders| ==> db.orders[k].dtNext == NextAfterRun(old(db.orders[k]), now, after)
    ensures r.Pass? ==> forall k :: 0 <= k < |db.orders| ==> db.orders[k].dtNext.None? || db.orders[k].dtNext.value >= now
    ensures r.Pass? ==> Stored(old(db.txs), old(db.users), db.txs, db.users, SweepRows(old(db.orders), |old(db.orders)|, now, after))
    ensures r.Fail? ==> exists k :: StoppedAt(old(db.orders), old(db.txs), old(db.users), db.orders, db.txs, db.users, k, now, after)
    ensures old(db.Consistent()) ==> db.Consistent()
    ensures old(db.Conserved()) ==> db.Conserved()
  {
    ghost var orders0, txs0, users0 := db.orders, db.txs, db.users;
    r := Pass;
    var k := 0;
    while k < |db.orders|
      invariant r.Pass? && db.Wf()
      invariant SweptUpTo(orders0, db.orders, k, now, after)
      invariant Stored(txs0, users0, db.txs, db.users, SweepRows(orders0, k, now, after))
      invariant old(db.Consistent()) ==> db.Consistent()
      invariant old(db.Conserved()) ==> db.Conserved()
    {
      var visit := SweepOrder(db, k, now, after, orders0, txs0, users0);
      if visit.Fail? {
        r := visit;
        break;
      }
      k := k + 1;
    }
    SweptFields(orders0, db.orders, k, now, after);
    if r.Pass? {
      assert k == |orders0|;
      assert Stored(txs0, users0, db.txs, db.users, SweepRows(orders0, |orders0|, now, after));
      forall j | 0 <= j < |orders0|
        ensures NextAfterRun(orders0[j], now, after).None? || NextAfterRun(orders0[j], now, after).value >= now
      {
        NextAfterRunNotOverdue(orders0[j], now, after);
      }
    }
  }

  /** One turn of the loop of `execute_orders`, stated against the orders, transactions and users it started from. */
  method SweepOrder(db: Database, k: nat, now: int, after: Recurrence, ghost orders0: seq<StandingOrder>,
                    ghost txs0: seq<Transaction>, ghost users0: seq<User>) returns (r: Outcome<Error>)
    requires db.Wf() && k < |db.orders|
    requires SweptUpTo(orders0, db.orders, k, now, after)
    requires Stored(txs0, users0, db.txs, db.users, SweepRows(orders0, k, now, after))
    modifies db`users, db`txs, db`orders
    ensures db.Wf()
    ensures r.Pass? ==> && SweptUpTo(orders0, db.orders, k + 1, now, after)
                        && Stored(txs0, users0, db.txs, db.users, SweepRows(orders0, k + 1, now, after))
    ensures r.Fail? ==> StoppedAt(orders0, txs0, users0, db.orders, db.txs, db.users, k, now, after)
    ensures old(db.Consistent()) ==> db.Consistent()
    ensures old(db.Conserved()) ==> db.Conserved()
  {
    ghost var txs1, users1 := db.txs, db.users;
    r := VisitOrder(db, k, now, after);
    if r.Pass? {
      StoredAppend(txs0, users0, txs1, users1, db.txs, db.users, SweepRows(orders0, k, now, after),
                   OrderRows(orders0[k], k, now, after));
    }
  }

  /**
   * The store moved from `txs0` and `users0` to `txs` and `users` by
   * storing `rows` and crediting their deltas.
   */
  ghost predicate Stored(txs0: seq<Transaction>, users0: seq<User>, txs: seq<Transaction>, users: seq<User>,
                         rows: seq<Transaction>) {
    txs == txs0 + rows && Credited(users0, users, rows)
  }

  /**
   * `execute_orders` stopped at order `k`: it was selected and its catch-up
   * failed; the orders before it were committed (moved to their catch-up
   * instant, their transactions stored), while order `k`, rolled back, and
   * the orders after it are as they were.
   */
  ghost predicate StoppedAt(orders0: seq<StandingOrder>, txs0: seq<Transaction>, users0: seq<User>,
                            orders: seq<StandingOrder>, txs: seq<Transaction>, users: seq<User>,
                            k: nat, now: int, after: Recurrence) {
    && k < |orders0|
    && Selected(orders0[k], now) && Catchup(orders0[k].rule, orders0[k].dtNext, now, after).Err?
    && SweptUpTo(orders0, orders, k, now, after)
    && Stored(txs0, users0, txs, users, SweepRows(orders0, k, now, after))
  }

  /** Storing two batches in turn stores their concatenation. */
  lemma StoredAppend(txs0: seq<Transaction>, users0: seq<User>, txs1: seq<Transaction>, users1: seq<User>,
                     txs: seq<Transaction>, users: seq<User>, front: seq<Transaction>, last: seq<Transaction>)
    requires Stored(txs0, users0, txs1, users1, front) && Stored(txs1, users1, txs, users, last)
    ensures Stored(txs0, users0, txs, users, front + last)
  {
    assert txs0 + front + last == txs0 + (front + last);
    CreditedAppend(users0, users1, users, front, last);
  }

  /** Whichever turn `execute_orders` stops at, only the `dt_next_utc` of selected orders has changed. */
  lemma SweptFields(orders0: seq<StandingOrder>, orders: seq<StandingOrder>, k: nat, now: int, after: Recurrence)
    requires SweptUpTo(orders0, orders, k, now, after)
    ensures |orders| == |orders0|
    ensures forall j :: 0 <= j < |orders| ==> orders[j] == orders0[j].(dtNext := orders[j].dtNext)
    ensures forall j :: 0 <= j < |orders| && !Selected(orders0[j], now) ==> orders[j] == orders0[j]
  {
  }

  /** With a recurrence that moves strictly forward, `execute_orders` always succeeds. */
  lemma ExecuteOrdersSucceeds(orders: seq<StandingOrder>, now: int, after: Recurrence)
    requires Monotone(after)
    ensures forall k :: 0 <= k < |orders| && Selected(orders[k], now) ==> Catchup(orders[k].rule, orders[k].dtNext, now, after).Ok?
  {
    forall k | 0 <= k < |orders| && Selected(orders[k], now)
      ensures Catchup(orders[k].rule, orders[k].dtNext, now, after).Ok?
    {
      CatchupMonotone(orders[k].rule, orders[k].dtNext, now, after);
    }
  }

  // ---------------------------------------------------------------------------
  // create_order and disable_order

  /**
   * `create_order`: a positive amount, both users present and a rule with a
   * first occurrence `first` (`rrule[0]`) give a new order due at `first`.
   */
  method CreateOrder(db: Database, me: string, name: string, recipientName: string, amount: int, rule: string,
                     first: Option<int>, note: Option<string>, now: int) returns (r: Outcome<Error>)
    requires db.Wf()
    modifies db`orders
    ensures db.Wf()
    ensures r.Fail? ==> db.orders == old(db.orders)
    ensures SanitizeLabel(name).Err? || SanitizeUserName(recipientName).Err? ==> r == Fail(InvalidName)
    ensures SanitizeLabel(name).Ok? && SanitizeUserName(recipientName).Ok? && amount <= 0 ==> r == Fail(InvalidAmount)
    ensures UserId(old(db.users), me).None? ==> r.Fail?
    ensures SanitizeUserName(recipientName) == Ok(me) ==> r.Fail?
    ensures first.None? ==> r.Fail?
    ensures r.Pass? <==>
      && SanitizeLabel(name).Ok? && SanitizeUserName(recipientName).Ok? && amount > 0 && first.Some?
      && UserId(old(db.users), me).Some? && UserId(old(db.users), SanitizeUserName(recipientName).value).Some?
      && UserId(old(db.users), me) != UserId(old(db.users), SanitizeUserName(recipientName).value)
      && OrderId(old(db.orders), SanitizeLabel(name).value, UserId(old(db.users), me).value).None?
    ensures r.Pass? ==> db.orders == old(db.orders) + [StandingOrder(
      SanitizeLabel(name).value, UserId(old(db.users), me).value, UserId(old(db.users), SanitizeUserName(recipientName).value).value,
      amount, note, rule, first, now)]
  {
    var orderName := SanitizeLabel(name);
    if orderName.Err? {
      return Fail(orderName.error);
    }
    var recipientValid := SanitizeUserName(recipientName);
    if recipientValid.Err? {
      return Fail(recipientValid.error);
    }
    if amount <= 0 {
      return Fail(InvalidAmount);
    }
    var sender := UserId(db.users, me);
    if sender.None? {
      return Fail(NotFound(CurrentUser));
    }
    var recipient := UserId(db.users, recipientValid.value);
    if recipient.None? {
      return Fail(NotFound(Recipient));
    }
    if first.None? {
      return Fail(NoOccurrence);
    }
    var ok := db.InsertOrder(StandingOrder(orderName.value, sender.value, recipient.value, amount, note, rule, first, now));
    return if ok then Pass else Fail(IntegrityError);
  }

  /**
   * `disable_order`: an enabled order of the current user becomes disabled
   * once the user confirms; `Ok(false)` when the user declines, `Ok(true)`
   * at once when it is already disabled.
   */
  method DisableOrder(db: Database, me: string, name: string, confirm: Question -> bool) returns (r: Result<bool, Error>)
    requires db.Wf()
    modifies db`orders
    ensures db.Wf()
    ensures SanitizeLabel(name).Err? ==> r == Err(InvalidName)
    ensures SanitizeLabel(name).Ok? && UserId(db.users, me).None? ==> r == Err(NotFound(CurrentUser))
    ensures r.Ok? <==> SanitizeLabel(name).Ok? && UserId(db.users, me).Some?
                       && OrderId(old(db.orders), SanitizeLabel(name).value, UserId(db.users, me).value).Some?
    ensures r.Ok? ==>
      var k := OrderId(old(db.orders), SanitizeLabel(name).value, UserId(db.users, me).value).value;
      && (old(db.orders[k].dtNext).None? ==> r == Ok(true) && db.orders == old(db.orders))
      && (old(db.orders[k].dtNext).Some? && !confirm(Irreversible) ==> r == Ok(false) && db.orders == old(db.orders))
      && (old(db.orders[k].dtNext).Some? && confirm(Irreversible) ==>
            r == Ok(true) && db.orders == old(db.orders)[k := old(db.orders[k]).(dtNext := None)])
    ensures r.Err? ==> db.orders == old(db.orders)
  {
    var orderName := SanitizeLabel(name);
    if orderName.Err? {
      return Err(orderName.error);
    }
    var user := UserId(db.users, me);
    if user.None? {
      return Err(NotFound(CurrentUser));
    }
    var k := OrderId(db.orders, orderName.value, user.value);
    if k.None? {
      return Err(NotFound(OrderName));
    }
    if db.orders[k.value].dtNext.None? {
      return Ok(true);
    }
    if !confirm(Irreversible) {
      return Ok(false);
    }
    db.SetOrderNext(k.value, None);
    return Ok(true);
  }

  /** Once disabled, an order stays disabled: catching up never re-enables it. */
  lemma DisabledIsTerminal(rule: string, now: int, after: Recurrence)
    ensures Catchup(rule, None, now, after) == Ok(([], None))
  {
  }

  // ---------------------------------------------------------------------------
  // The scheduling scenario of the test suite

  const Day := 86400

  /** A daily rule with no end: the next occurrence is one day later. */
  function Daily(rule: string, t: int): Option<int> {
    Some(t + Day)
  }

  /** A daily rule of three occurrences starting at `start`. */
  function ThreeDays(start: int): Recurrence {
    (rule: string, t: int) =>
      if t < start then Some(start)
      else if t < start + Day then Some(start + Day)
      else if t < start + 2 * Day then Some(start + 2 * Day)
      else None
  }

  /**
   * Two orders starting five days before `today`, run some time during
   * `today`: the daily one pays six times (today included) and is next due
   * tomorrow; the three-day one pays three times and expires.
   */
  lemma {:induction false} TestOrderScenario(today: int, now: int)
    requires today <= now < today + Day
    ensures var start := today - 5 * Day;
      && Catchup("daily", Some(start), now, Daily)
         == Ok(([start, start + Day, start + 2 * Day, start + 3 * Day, start + 4 * Day, today], Some(today + Day)))
      && Catchup("count=3", Some(start), now, ThreeDays(start))
         == Ok(([start, start + Day, start + 2 * Day], None))
  {
    var start := today - 5 * Day;
    var d := "daily";
    assert Catchup(d, Some(today + Day), now, Daily) == Ok(([], Some(today + Day)));
    CatchupStep(d, today, now, Daily, [], Some(today + Day));
    assert [today] + [] == [today];
    CatchupStep(d, start + 4 * Day, now, Daily, [today], Some(today + Day));
    assert [start + 4 * Day] + [today] == [start + 4 * Day, today];
    CatchupStep(d, start + 3 * Day, now, Daily, [start + 4 * Day, today], Some(today + Day));
    assert [start + 3 * Day] + [start + 4 * Day, today] == [start + 3 * Day, start + 4 * Day, today];
    CatchupStep(d, start + 2 * Day, now, Daily, [start + 3 * Day, start + 4 * Day, today], Some(today + Day));
    assert [start + 2 * Day] + [start + 3 * Day, start + 4 * Day, today] == [start + 2 * Day, start + 3 * Day, start + 4 * Day, today];
    CatchupStep(d, start + Day, now, Daily, [start + 2 * Day, start + 3 * Day, start + 4 * Day, today], Some(today + Day));
    assert [start + Day] + [start + 2 * Day, start + 3 * Day, start + 4 * Day, today]
        == [start + Day, start + 2 * Day, start + 3 * Day, start + 4 * Day, today];
    CatchupStep(d, start, now, Daily, [start + Day, start + 2 * Day, start + 3 * Day, start + 4 * Day, today], Some(today + Day));
    assert [start] + [start + Day, start + 2 * Day, start + 3 * Day, start + 4 * Day, today]
        == [start, start + Day, start + 2 * Day, start + 3 * Day, start + 4 * Day, today];
    var c := "count=3";
    var three := ThreeDays(start);
    assert three(c, start + 2 * Day) == None;
    assert Catchup(c, None, now, three) == Ok(([], None));
    CatchupStep(c, start + 2 * Day, now, three, [], None);
    assert [start + 2 * Day] + [] == [start + 2 * Day];
    assert three(c, start + Day) == Some(start + 2 * Day);
    CatchupStep(c, start + Day, now, three, [start + 2 * Day], None);
    assert [start + Day] + [start + 2 * Day] == [start + Day, start + 2 * Day];
    assert three(c, start) == Some(start + Day);
    CatchupStep(c, start, now, three, [start + Day, start + 2 * Day], None);
    assert [start] + [start + Day, start + 2 * Day] == [start, start + Day, start + 2 * Day];
  }

  /** With amounts 1.000 and 0.010, the recipient of both orders gains 6.030. */
  lemma {:induction false} TestOrderTotal(o1: StandingOrder, o2: StandingOrder, today: int, now: int)
    requires today <= now < today + Day
    requires o1.amount == 1000 && o2.amount == 10 && o1.userFrom != o1.userTo
    requires o2.userFrom == o1.userFrom && o2.userTo == o1.userTo
    ensures var start := today - 5 * Day;
      var dues1 := [start, start + Day, start + 2 * Day, start + 3 * Day, start + 4 * Day, today];
      var dues2 := [start, start + Day, start + 2 * Day];
      && Catchup("daily", Some(start), now, Daily) == Ok((dues1, Some(today + Day)))
      && Catchup("count=3", Some(start), now, ThreeDays(start)) == Ok((dues2, None))
      && Net(Payments(o1, 0, dues1, now), o1.userTo) + Net(Payments(o2, 1, dues2, now), o1.userTo) == 6030
  {
    TestOrderScenario(today, now);
    var start := today - 5 * Day;
    PaymentsNet(o1, 0, [start, start + Day, start + 2 * Day, start + 3 * Day, start + 4 * Day, today], now, o1.userTo);
    PaymentsNet(o2, 1, [start, start + Day, start + 2 * Day], now, o1.userTo);
  }
}
