/**
 * The payment operations of the engine (mpay/mpay.py `create_user`,
 * `create_agent`, `pay`, `import_df`). Each runs in one session: it looks
 * things up and prepares its rows, then commits them all or nothing.
 */
module Payments {
  import opened Common
  import opened Text
  import opened Schema
  import opened Names
  import opened Ledger
  import opened Tags

  function Abs(x: int): (r: nat)
    ensures r == x || r == -x
  {
    if x < 0 then -x else x
  }

  /** `create_user`: a sanitized, unused name joins with a zero balance. */
  method CreateUser(db: Database, name: string) returns (r: Outcome<Error>)
    requires db.Wf()
    modifies db`users
    ensures db.Wf()
    ensures r.Pass? <==> SanitizeUserName(name).Ok? && UserId(old(db.users), SanitizeUserName(name).value).None?
    ensures r.Pass? ==> db.users == old(db.users) + [User(SanitizeUserName(name).value, 0)]
    ensures r.Fail? ==> db.users == old(db.users)
    ensures old(db.Consistent()) ==> db.Consistent()
    ensures old(db.Conserved()) ==> db.Conserved()
  {
    var n := SanitizeUserName(name);
    if n.Err? {
      return Fail(n.error);
    }
    var ok := db.InsertUser(User(n.value, 0));
    return if ok then Pass else Fail(IntegrityError);
  }

  /** `create_agent`: a sanitized, unused name joins the agents. */
  method CreateAgent(db: Database, name: string, description: Option<string>) returns (r: Outcome<Error>)
    requires db.Wf()
    modifies db`agents
    ensures db.Wf()
    ensures r.Pass? <==> SanitizeLabel(name).Ok? && AgentId(old(db.agents), SanitizeLabel(name).value).None?
    ensures r.Pass? ==> db.agents == old(db.agents) + [Agent(SanitizeLabel(name).value, description)]
    ensures r.Fail? ==> db.agents == old(db.agents)
  {
    var n := SanitizeLabel(name);
    if n.Err? {
      return Fail(n.error);
    }
    var ok := db.InsertAgent(Agent(n.value, description));
    return if ok then Pass else Fail(IntegrityError);
  }

  // ---------------------------------------------------------------------------
  // Committing a session

  /** The table sizes once an optional new agent and the session's tags are added. */
  function SizesAfter(n: Sizes, agent: Option<Agent>, tags: seq<Tag>): Sizes {
    n.(agents := n.agents + (if agent.Some? then 1 else 0), tags := |tags|)
  }

  /**
   * The flush of a session's pending transaction rows: each INSERT fires the
   * balance trigger; when the store rejects a row, the rows already inserted
   * are rolled back with it.
   */
  method InsertRows(db: Database, rows: seq<Transaction>) returns (ok: bool)
    requires db.Wf()
    modifies db`users, db`txs
    ensures db.Wf()
    ensures ok <==> RowsAdmissible(rows, old(db.Sizes()))
    ensures ok ==> && db.txs == old(db.txs) + rows
                   && |db.users| == |old(db.users)|
                   && forall v :: 0 <= v < |db.users| ==>
                        db.users[v] == old(db.users[v]).(balance := old(db.users[v].balance) + Net(rows, v))
    ensures !ok ==> db.users == old(db.users) && db.txs == old(db.txs)
    ensures old(db.Consistent()) ==> db.Consistent()
    ensures old(db.Conserved()) ==> db.Conserved()
  {
    var users0, txs0 := db.users, db.txs;
    var k := InsertPrefix(db, rows);
    ok := k == |rows|;
    if ok {
      assert rows[..k] == rows;
    } else {
      db.users, db.txs := users0, txs0;
    }
  }

  /**
   * The inserts of `InsertRows` before the commit decides: row by row until
   * the end or the first row the store rejects, which is left out.
   */
  method InsertPrefix(db: Database, rows: seq<Transaction>) returns (k: nat)
    requires db.Wf()
    modifies db`users, db`txs
    ensures db.Wf() && db.Sizes() == old(db.Sizes())
    ensures k <= |rows| && RowsAdmissible(rows[..k], old(db.Sizes()))
    ensures k < |rows| ==> !RowAdmissible(rows[k], old(db.Sizes()))
    ensures db.txs == old(db.txs) + rows[..k]
    ensures Credited(old(db.users), db.users, rows[..k])
    ensures old(db.Consistent()) ==> db.Consistent()
    ensures old(db.Conserved()) ==> db.Conserved()
  {
    var users0, txs0 := db.users, db.txs;
    ghost var n0 := db.Sizes();
    ghost var consistent, conserved := db.Consistent(), db.Conserved();
    k := 0;
    while k < |rows|
      invariant 0 <= k <= |rows|
      invariant db.Wf() && db.Sizes() == n0
      invariant db.txs == txs0 + rows[..k]
      invariant RowsAdmissible(rows[..k], n0)
      invariant Credited(users0, db.users, rows[..k])
      invariant consistent ==> db.Consistent()
      invariant conserved ==> db.Conserved()
    {
      ghost var mid := db.users;
      var ok := db.Insert(rows[k]);
      if !ok {
        break;
      }
      assert rows[..k + 1] == rows[..k] + [rows[k]];
      assert RowsAdmissible(rows[..k + 1], n0);
      CreditedSnoc(users0, mid, db.users, rows[..k], rows[k]);
      k := k + 1;
    }
  }

  /**
   * `session.commit()` of a session that added an optional agent, some tags
   * and the transaction rows `rows`: either everything is stored, each row
   * firing the insert trigger, or the store rejects a row and nothing is.
   */
  method Commit(db: Database, agent: Option<Agent>, tags: seq<Tag>, rows: seq<Transaction>) returns (ok: bool)
    requires db.Wf()
    requires agent.Some? ==> AgentId(db.agents, agent.value.name).None?
    requires |db.tags| <= |tags| && tags[..|db.tags|] == db.tags && TagsUnique(tags) && TagsAcyclic(tags)
    modifies db`users, db`txs, db`agents, db`tags
    ensures db.Wf()
    ensures ok <==> RowsAdmissible(rows, SizesAfter(old(db.Sizes()), agent, tags))
    ensures ok ==> && db.agents == old(db.agents) + NewAgents(agent)
                   && db.tags == tags
                   && db.txs == old(db.txs) + rows
                   && |db.users| == |old(db.users)|
                   && forall v :: 0 <= v < |db.users| ==>
                        db.users[v] == old(db.users[v]).(balance := old(db.users[v].balance) + Net(rows, v))
    ensures !ok ==> db.users == old(db.users) && db.txs == old(db.txs) && db.agents == old(db.agents) && db.tags == old(db.tags)
    ensures old(db.Consistent()) ==> db.Consistent()
    ensures old(db.Conserved()) ==> db.Conserved()
  {
    ghost var n0 := db.Sizes();
    var agents0, tags0 := db.agents, db.tags;
    if agent.Some? {
      var added := db.InsertAgent(agent.value);
      assert added;
    }
    db.CommitTags(tags);
    assert db.Sizes() == SizesAfter(n0, agent, tags);
    ok := InsertRows(db, rows);
    if !ok {
      db.agents, db.tags := agents0, tags0;
    }
  }

  // ---------------------------------------------------------------------------
  // Tags named in a payment

  /**
   * One entry of `pay`'s tag list: the existing tag, or, when the path is
   * missing and the user confirms, the tag `create_hierarchical_tag` makes.
   */
  function TagFor(tags: seq<Tag>, path: string, confirm: Question -> bool): (r: Result<(seq<Tag>, nat), Error>)
    ensures r.Ok? ==> |tags| <= |r.value.0| && r.value.1 < |r.value.0|
  {
    match ResolvePath(tags, path)
    case Ok(k) => Ok((tags, k))
    case Err(NotFound(_)) =>
      if !confirm(TagMissing(path)) then Err(Declined(TagPath))
      else EnsurePath(tags, Segments(path), None)
    case Err(e) => Err(e)
  }

  /** The tags of all the paths, in order, on the session's growing tag table. */
  function TagsFor(tags: seq<Tag>, paths: seq<string>, confirm: Question -> bool): (r: Result<(seq<Tag>, set<nat>), Error>)
    ensures r.Ok? ==> |tags| <= |r.value.0| && forall k :: k in r.value.1 ==> k < |r.value.0|
    decreases |paths|
  {
    if paths == [] then Ok((tags, {}))
    else
      match TagFor(tags, paths[0], confirm)
      case Err(e) => Err(e)
      case Ok((more, k)) =>
        match TagsFor(more, paths[1..], confirm)
        case Err(e) => Err(e)
        case Ok((grown, ids)) => Ok((grown, {k} + ids))
  }

  /** `pay`'s loop over `tag_hierarchical_names`. */
  method ResolveTags(tags: seq<Tag>, paths: seq<string>, confirm: Question -> bool)
      returns (r: Result<(seq<Tag>, set<nat>), Error>)
    ensures r == TagsFor(tags, paths, confirm)
  {
    var session := tags;
    var ids: set<nat> := {};
    var i := 0;
    assert paths[i..] == paths;
    GatherNothing(TagsFor(tags, paths, confirm));
    while i < |paths|
      invariant 0 <= i <= |paths|
      invariant TagsFor(tags, paths, confirm) == Gather(ids, TagsFor(session, paths[i..], confirm))
    {
      var one := ResolveTag(session, paths[i], confirm);
      TagsForStep(session, paths, i, confirm, one);
      if one.Err? {
        return Err(one.error);
      }
      var k := one.value.1;
      session := one.value.0;
      GatherAssoc(ids, k, TagsFor(session, paths[i + 1..], confirm));
      ids := ids + {k};
      i := i + 1;
    }
    assert paths[i..] == [];
    GatherDone(ids, session);
    return Ok((session, ids));
  }

  /** One pass of `pay`'s tag loop: `find_tag`, and on `NoResultFound` the confirmation and `create_hierarchical_tag`. */
  method ResolveTag(tags: seq<Tag>, path: string, confirm: Question -> bool) returns (r: Result<(seq<Tag>, nat), Error>)
    ensures r == TagFor(tags, path, confirm)
  {
    var tag := FindTag(tags, path);
    if tag.Ok? {
      return Ok((tags, tag.value));
    } else if tag.error.NotFound? {
      if !confirm(TagMissing(path)) {
        return Err(Declined(TagPath));
      }
      r := CreateHierarchicalTag(tags, path);
    } else {
      return Err(tag.error);
    }
  }

  /** Adds the ids found so far to a later result. */
  function Gather(ids: set<nat>, r: Result<(seq<Tag>, set<nat>), Error>): Result<(seq<Tag>, set<nat>), Error> {
    match r
    case Err(e) => Err(e)
    case Ok((t, more)) => Ok((t, ids + more))
  }

  /** Unfolds `TagsFor` on the paths from the `i`-th on. */
  lemma TagsForStep(tags: seq<Tag>, paths: seq<string>, i: nat, confirm: Question -> bool,
                    one: Result<(seq<Tag>, nat), Error>)
    requires i < |paths| && one == TagFor(tags, paths[i], confirm)
    ensures one.Err? ==> TagsFor(tags, paths[i..], confirm) == Err(one.error)
    ensures one.Ok? ==> TagsFor(tags, paths[i..], confirm) == Gather({one.value.1}, TagsFor(one.value.0, paths[i + 1..], confirm))
  {
    TailOfSuffix(paths, i);
  }

  lemma GatherNothing(r: Result<(seq<Tag>, set<nat>), Error>)
    ensures Gather({}, r) == r
  {
    if r.Ok? {
      assert {} + r.value.1 == r.value.1;
    }
  }

  lemma GatherDone(ids: set<nat>, tags: seq<Tag>)
    ensures Gather(ids, Ok((tags, {}))) == Ok((tags, ids))
  {
    assert ids + {} == ids;
  }

  lemma GatherAssoc(ids: set<nat>, k: nat, r: Result<(seq<Tag>, set<nat>), Error>)
    ensures Gather(ids, Gather({k}, r)) == Gather(ids + {k}, r)
  {
    if r.Ok? {
      assert ids + ({k} + r.value.1) == ids + {k} + r.value.1;
    }
  }

  /** Resolving one tag path only extends the table and keeps its constraints. */
  lemma TagForGrows(tags: seq<Tag>, path: string, confirm: Question -> bool)
    requires TagsUnique(tags) && TagsAcyclic(tags)
    requires TagFor(tags, path, confirm).Ok?
    ensures var more := TagFor(tags, path, confirm).value.0;
      more[..|tags|] == tags && TagsUnique(more) && TagsAcyclic(more)
  {
    if ResolvePath(tags, path).Err? {
      EnsurePathGrows(tags, Segments(path), None);
    }
  }

  /** The tags of a payment only extend the table and keep its constraints. */
  lemma {:induction false} TagsForGrows(tags: seq<Tag>, paths: seq<string>, confirm: Question -> bool)
    requires TagsUnique(tags) && TagsAcyclic(tags)
    requires TagsFor(tags, paths, confirm).Ok?
    ensures var grown := TagsFor(tags, paths, confirm).value.0;
      grown[..|tags|] == tags && TagsUnique(grown) && TagsAcyclic(grown)
    decreases |paths|
  {
    if paths != [] {
      assert TagFor(tags, paths[0], confirm).Ok?;
      TagForGrows(tags, paths[0], confirm);
      var more := TagFor(tags, paths[0], confirm).value.0;
      TagsForGrows(more, paths[1..], confirm);
      var grown := TagsFor(more, paths[1..], confirm).value.0;
      PrefixOfPrefix(grown, more, tags);
    }
  }

  /**
   * When every confirmation is declined, a resolution that succeeds found
   * every path already there and created no tag: a payment naming a missing
   * tag path then fails.
   */
  lemma {:induction false} TagsForDeclined(tags: seq<Tag>, paths: seq<string>, confirm: Question -> bool)
    requires forall q :: !confirm(q)
    requires TagsFor(tags, paths, confirm).Ok?
    ensures TagsFor(tags, paths, confirm).value.0 == tags
    ensures forall j :: 0 <= j < |paths| ==> ResolvePath(tags, paths[j]).Ok?
    decreases |paths|
  {
    if paths != [] {
      assert !confirm(TagMissing(paths[0]));
      assert ResolvePath(tags, paths[0]).Ok?;
      TagsForDeclined(tags, paths[1..], confirm);
      forall j | 1 <= j < |paths| ensures ResolvePath(tags, paths[j]).Ok? {
        assert paths[1..][j - 1] == paths[j];
      }
    }
  }

  /** When every path exists, the payment gets exactly those tags and creates none. */
  lemma {:induction false} TagsForExisting(tags: seq<Tag>, paths: seq<string>, confirm: Question -> bool)
    requires forall j :: 0 <= j < |paths| ==> ResolvePath(tags, paths[j]).Ok?
    ensures TagsFor(tags, paths, confirm).Ok? && TagsFor(tags, paths, confirm).value.0 == tags
    ensures forall k :: k in TagsFor(tags, paths, confirm).value.1 <==>
      exists j :: 0 <= j < |paths| && ResolvePath(tags, paths[j]) == Ok(k)
    decreases |paths|
  {
    if paths != [] {
      var rest := paths[1..];
      forall j | 0 <= j < |rest| ensures ResolvePath(tags, rest[j]).Ok? {
        assert rest[j] == paths[j + 1];
      }
      TagsForExisting(tags, rest, confirm);
      var head := ResolvePath(tags, paths[0]).value;
      var tail := TagsFor(tags, rest, confirm).value.1;
      assert TagFor(tags, paths[0], confirm) == Ok((tags, head));
      assert TagsFor(tags, paths, confirm) == Ok((tags, {head} + tail));
      ResolvedIdsCons(tags, paths, head, tail);
    }
  }

  /** The ids the paths resolve to: the first path's and those of the rest. */
  lemma ResolvedIdsCons(tags: seq<Tag>, paths: seq<string>, head: nat, tail: set<nat>)
    requires paths != [] && ResolvePath(tags, paths[0]) == Ok(head)
    requires forall k :: k in tail <==> exists j :: 0 <= j < |paths| - 1 && ResolvePath(tags, paths[1..][j]) == Ok(k)
    ensures forall k :: k in {head} + tail <==> exists j :: 0 <= j < |paths| && ResolvePath(tags, paths[j]) == Ok(k)
  {
    var rest := paths[1..];
    forall k ensures k in {head} + tail <==> exists j :: 0 <= j < |paths| && ResolvePath(tags, paths[j]) == Ok(k) {
      if k in tail {
        var j :| 0 <= j < |rest| && ResolvePath(tags, rest[j]) == Ok(k);
        assert rest[j] == paths[j + 1];
      }
      if exists j :: 0 <= j < |paths| && ResolvePath(tags, paths[j]) == Ok(k) {
        var j :| 0 <= j < |paths| && ResolvePath(tags, paths[j]) == Ok(k);
        if j > 0 {
          assert rest[j - 1] == paths[j];
        }
      }
    }
  }

  // ---------------------------------------------------------------------------
  // pay

  /** What a payment is about to store: the row, an agent to create, the session's tags. */
  datatype Prepared = Prepared(row: Transaction, agent: Option<Agent>, tags: seq<Tag>)

  /**
   * The transaction row `pay` builds: a non-negative amount goes from the
   * sender to the recipient; a negative one goes the other way, stored as its
   * absolute value, and the current user is recorded as its creator either way.
   */
  function PaymentRow(sender: nat, recipient: nat, amount: int, originalAmount: Option<int>, currency: Option<nat>,
                      agent: Option<nat>, note: Option<string>, tags: set<nat>, now: int, due: int): (t: Transaction)
    requires sender != recipient
    ensures t.userCreated == Some(sender) && t.convertedAmount >= 0
    ensures Delta(t, recipient) == amount && Delta(t, sender) == -amount
    ensures forall v :: v != sender && v != recipient ==> Delta(t, v) == 0
  {
    var (from, to) := if amount >= 0 then (sender, recipient) else (recipient, sender);
    Transaction(from, to, Some(sender),
                if originalAmount.Some? then Some(Abs(originalAmount.value)) else None,
                currency, Abs(amount), None, agent, note, now, due, tags)
  }

  /** The currency row a payment refers to: none, or the one with the given ISO code. */
  function CurrencyFor(cs: seq<Currency>, currency: Option<string>): (r: Option<nat>)
    ensures r.Some? <==> currency.Some? && HasCode(cs, currency.value)
    ensures r.Some? ==> r.value < |cs| && cs[r.value].iso4217 == currency.value
  {
    if currency.Some? then CurrencyId(cs, currency.value) else None
  }

  /**
   * The agent a payment or an import attaches, as an id, with the agent row
   * it adds when the (sanitized) name is not yet in `agents`: that new row
   * takes the next free id.
   */
  function AgentFor(agents: seq<Agent>, agentName: Option<string>): (r: (Option<nat>, Option<Agent>))
    ensures r.0.None? <==> agentName.None? || SanitizeLabel(agentName.value).Err?
    ensures r.1.Some? ==> && r.0 == Some(|agents|) && r.1.value == Agent(SanitizeLabel(agentName.value).value, None)
                          && AgentId(agents, SanitizeLabel(agentName.value).value).None?
    ensures r.0.Some? && r.1.None? ==> r.0 == AgentId(agents, SanitizeLabel(agentName.value).value)
  {
    if agentName.None? || SanitizeLabel(agentName.value).Err? then (None, None)
    else
      var name := SanitizeLabel(agentName.value).value;
      var k := AgentId(agents, name);
      if k.Some? then (k, None) else (Some(|agents|), Some(Agent(name, None)))
  }

  /**
   * Every lookup of `pay` succeeds: the recipient's name is valid, both users
   * exist and differ, a named currency exists, and a named agent is valid and
   * exists or its creation is confirmed.
   */
  predicate PartiesOk(users: seq<User>, currencies: seq<Currency>, agents: seq<Agent>, me: string, recipientName: string,
                      currency: Option<string>, agentName: Option<string>, confirm: Question -> bool) {
    && SanitizeUserName(recipientName).Ok?
    && UserId(users, me).Some?
    && UserId(users, SanitizeUserName(recipientName).value).Some?
    && UserId(users, me) != UserId(users, SanitizeUserName(recipientName).value)
    && (currency.Some? ==> HasCode(currencies, currency.value))
    && (agentName.Some? ==>
          && SanitizeLabel(agentName.value).Ok?
          && (AgentId(agents, SanitizeLabel(agentName.value).value).Some?
              || confirm(AgentMissing(SanitizeLabel(agentName.value).value))))
  }

  /**
   * `pay` stores its transaction: the lookups succeed, every tag path is
   * found or created, the due instant is not in the future, and an original
   * amount comes with an original currency and vice versa (the CHECK
   * constraints of `transactions`).
   */
  predicate PaymentOk(users: seq<User>, currencies: seq<Currency>, agents: seq<Agent>, tags: seq<Tag>,
                      me: string, recipientName: string, due: Option<int>, now: int, currency: Option<string>,
                      originalAmount: Option<int>, agentName: Option<string>, tagPaths: seq<string>, confirm: Question -> bool) {
    && PartiesOk(users, currencies, agents, me, recipientName, currency, agentName, confirm)
    && TagsFor(tags, tagPaths, confirm).Ok?
    && due.GetOr(now) <= now
    && (currency.Some? <==> originalAmount.Some?)
  }

  /**
   * The store accepts a payment row whose references resolve exactly when it
   * is not due in the future and carries an original amount iff it carries
   * an original currency.
   */
  lemma PaymentRowAdmissible(t: Transaction, n: Sizes, due: int, now: int, currency: Option<string>, originalAmount: Option<int>)
    requires t.userFrom < n.users && t.userTo < n.users && t.userFrom != t.userTo
    requires t.userCreated.Some? && t.userCreated.value < n.users && t.convertedAmount >= 0
    requires t.originalCurrency.Some? ==> t.originalCurrency.value < n.currencies
    requires t.originalCurrency.Some? <==> currency.Some?
    requires t.originalAmount.Some? <==> originalAmount.Some?
    requires t.originalAmount.Some? ==> t.originalAmount.value >= 0
    requires t.standingOrder.None? && (t.agent.Some? ==> t.agent.value < n.agents)
    requires forall g :: g in t.tags ==> g < n.tags
    requires t.dtDue == due && t.dtCreated == now
    ensures RowsAdmissible([t], n) <==> due <= now && (currency.Some? <==> originalAmount.Some?)
  {
    assert [t][0] == t;
  }

  /** The rows `pay` looked up (or is about to create) before building its transaction. */
  datatype Parties = Parties(sender: nat, recipient: nat, currency: Option<nat>, agent: Option<nat>, newAgent: Option<Agent>)

  /** The lookups and the agent confirmation of `pay`, in the source's order. */
  method LookUpParties(db: Database, me: string, recipientName: string, currency: Option<string>,
                       agentName: Option<string>, confirm: Question -> bool) returns (r: Result<Parties, Error>)
    requires db.Wf()
    ensures SanitizeUserName(recipientName).Err? ==> r == Err(InvalidName)
    ensures UserId(db.users, me).None? ==> r.Err?
    ensures SanitizeUserName(recipientName).Ok? && UserId(db.users, SanitizeUserName(recipientName).value).None? ==> r.Err?
    ensures SanitizeUserName(recipientName) == Ok(me) ==> r.Err?
    ensures currency.Some? && !HasCode(db.currencies, currency.value) ==> r.Err?
    ensures (agentName.Some? && SanitizeLabel(agentName.value).Ok? && AgentId(db.agents, SanitizeLabel(agentName.value).value).None?
             && !confirm(AgentMissing(SanitizeLabel(agentName.value).value))) ==> r.Err?
    ensures r.Ok? <==> PartiesOk(db.users, db.currencies, db.agents, me, recipientName, currency, agentName, confirm)
    ensures r.Ok? ==>
      && UserId(db.users, me) == Some(r.value.sender) && SanitizeUserName(recipientName).Ok?
      && UserId(db.users, SanitizeUserName(recipientName).value) == Some(r.value.recipient)
      && r.value.sender != r.value.recipient
      && (r.value.newAgent.Some? ==> AgentId(db.agents, r.value.newAgent.value.name).None?)
    ensures r.Ok? ==> && r.value.currency == CurrencyFor(db.currencies, currency)
                      && (r.value.agent, r.value.newAgent) == AgentFor(db.agents, agentName)
  {
    var recipientValid := SanitizeUserName(recipientName);
    if recipientValid.Err? {
      return Err(recipientValid.error);
    }
    var sender := UserId(db.users, me);
    if sender.None? {
      return Err(NotFound(CurrentUser));
    }
    var recipient := UserId(db.users, recipientValid.value);
    if recipient.None? {
      return Err(NotFound(Recipient));
    }
    if sender == recipient {
      return Err(SameUser);
    }
    var currencyId: Option<nat> := None;
    if currency.Some? {
      currencyId := CurrencyId(db.currencies, currency.value);
      if currencyId.None? {
        return Err(UnknownCurrency);
      }
    }
    var newAgent: Option<Agent> := None;
    var agentId: Option<nat> := None;
    if agentName.Some? {
      var agentValid := SanitizeLabel(agentName.value);
      if agentValid.Err? {
        return Err(agentValid.error);
      }
      agentId := AgentId(db.agents, agentValid.value);
      if agentId.None? {
        if !confirm(AgentMissing(agentValid.value)) {
          return Err(Declined(AgentName));
        }
        newAgent := Some(Agent(agentValid.value, None));
        agentId := Some(|db.agents|);
      }
    }
    return Ok(Parties(sender.value, recipient.value, currencyId, agentId, newAgent));
  }

  /** Everything `pay` does before `session.commit()`: the lookups, the confirmations and the row. */
  method PreparePayment(db: Database, me: string, recipientName: string, amount: int, due: Option<int>, now: int,
                        currency: Option<string>, originalAmount: Option<int>, agentName: Option<string>,
                        note: Option<string>, tagPaths: seq<string>, confirm: Question -> bool)
      returns (r: Result<Prepared, Error>)
    requires db.Wf()
    ensures SanitizeUserName(recipientName).Err? ==> r == Err(InvalidName)
    ensures r.Ok? ==>
      && UserId(db.users, me).Some? && SanitizeUserName(recipientName).Ok?
      && UserId(db.users, SanitizeUserName(recipientName).value).Some?
    ensures r.Ok? ==>
      var sender := UserId(db.users, me).value;
      var recipient := UserId(db.users, SanitizeUserName(recipientName).value).value;
      && sender != recipient
      && r.value.row.dtDue == due.GetOr(now) && r.value.row.dtCreated == now
      && r.value.row.userCreated == Some(sender) && r.value.row.convertedAmount == Abs(amount)
      && Delta(r.value.row, recipient) == amount && Delta(r.value.row, sender) == -amount
      && (forall v :: v != sender && v != recipient ==> Delta(r.value.row, v) == 0)
    ensures r.Ok? ==> (r.value.agent.Some? ==> AgentId(db.agents, r.value.agent.value.name).None?)
    ensures r.Ok? ==> |db.tags| <= |r.value.tags| && r.value.tags[..|db.tags|] == db.tags
                      && TagsUnique(r.value.tags) && TagsAcyclic(r.value.tags)
    ensures r.Ok? <==> PartiesOk(db.users, db.currencies, db.agents, me, recipientName, currency, agentName, confirm)
                       && TagsFor(db.tags, tagPaths, confirm).Ok?
    ensures r.Ok? ==> r.value == PaymentFor(db.users, db.currencies, db.agents, db.tags, me, recipientName, amount, due, now,
                                            currency, originalAmount, agentName, note, tagPaths, confirm)
  {
    var parties := LookUpParties(db, me, recipientName, currency, agentName, confirm);
    if parties.Err? {
      return Err(parties.error);
    }
    var pt := parties.value;
    var dueAt := due.GetOr(now);
    var tags := ResolveTags(db.tags, tagPaths, confirm);
    if tags.Err? {
      return Err(tags.error);
    }
    if forall q :: !confirm(q) {
      TagsForDeclined(db.tags, tagPaths, confirm);
    }
    TagsForGrows(db.tags, tagPaths, confirm);
    var row := PaymentRow(pt.sender, pt.recipient, amount, originalAmount, pt.currency,
                          pt.agent, note, tags.value.1, now, dueAt);
    return Ok(Prepared(row, pt.newAgent, tags.value.0));
  }

  /**
   * What `pay` hands to the commit once every lookup has succeeded: the
   * transaction row, the agent row it creates (if any) and the grown tag
   * table.
   */
  function PaymentFor(users: seq<User>, currencies: seq<Currency>, agents: seq<Agent>, tags: seq<Tag>,
                      me: string, recipientName: string, amount: int, due: Option<int>, now: int,
                      currency: Option<string>, originalAmount: Option<int>, agentName: Option<string>,
                      note: Option<string>, tagPaths: seq<string>, confirm: Question -> bool): Prepared
    requires PartiesOk(users, currencies, agents, me, recipientName, currency, agentName, confirm)
    requires TagsFor(tags, tagPaths, confirm).Ok?
  {
    var (agent, newAgent) := AgentFor(agents, agentName);
    var (grown, tagIds) := TagsFor(tags, tagPaths, confirm).value;
    Prepared(PaymentRow(UserId(users, me).value, UserId(users, SanitizeUserName(recipientName).value).value,
                        amount, originalAmount, CurrencyFor(currencies, currency), agent, note, tagIds, now, due.GetOr(now)),
             newAgent, grown)
  }

  /** The agent rows a commit appends: the new one, if any. */
  function NewAgents(agent: Option<Agent>): seq<Agent> {
    if agent.Some? then [agent.value] else []
  }

  /**
   * The prepared payment row passes the store's constraints exactly when it
   * is not due in the future and an original amount comes with an original
   * currency: its references all resolve once the new agent and tags exist.
   */
  lemma PaymentForAdmissible(users: seq<User>, currencies: seq<Currency>, agents: seq<Agent>, tags: seq<Tag>,
                             me: string, recipientName: string, amount: int, due: Option<int>, now: int,
                             currency: Option<string>, originalAmount: Option<int>, agentName: Option<string>,
                             note: Option<string>, tagPaths: seq<string>, confirm: Question -> bool, n: Sizes)
    requires PartiesOk(users, currencies, agents, me, recipientName, currency, agentName, confirm)
    requires TagsFor(tags, tagPaths, confirm).Ok?
    requires n.users == |users| && n.currencies == |currencies| && n.agents == |agents|
    ensures var p := PaymentFor(users, currencies, agents, tags, me, recipientName, amount, due, now, currency,
                                originalAmount, agentName, note, tagPaths, confirm);
      RowsAdmissible([p.row], SizesAfter(n, p.agent, p.tags)) <==> due.GetOr(now) <= now && (currency.Some? <==> originalAmount.Some?)
  {
    var p := PaymentFor(users, currencies, agents, tags, me, recipientName, amount, due, now, currency,
                        originalAmount, agentName, note, tagPaths, confirm);
    PaymentRowAdmissible(p.row, SizesAfter(n, p.agent, p.tags), due.GetOr(now), now, currency, originalAmount);
  }

  /**
   * Each way a lookup or a confirmation of `pay` can fail leaves it without
   * parties or tags, and a due instant in the future fails the payment too.
   */
  lemma PaymentNotOk(users: seq<User>, currencies: seq<Currency>, agents: seq<Agent>, tags: seq<Tag>,
                     me: string, recipientName: string, due: Option<int>, now: int, currency: Option<string>,
                     originalAmount: Option<int>, agentName: Option<string>, tagPaths: seq<string>, confirm: Question -> bool)
    ensures var ok := PartiesOk(users, currencies, agents, me, recipientName, currency, agentName, confirm)
                      && TagsFor(tags, tagPaths, confirm).Ok?;
      && (UserId(users, me).None? ==> !ok)
      && (SanitizeUserName(recipientName).Ok? && UserId(users, SanitizeUserName(recipientName).value).None? ==> !ok)
      && (SanitizeUserName(recipientName) == Ok(me) ==> !ok)
      && (currency.Some? && !HasCode(currencies, currency.value) ==> !ok)
      && ((agentName.Some? && SanitizeLabel(agentName.value).Ok? && AgentId(agents, SanitizeLabel(agentName.value).value).None?
           && !confirm(AgentMissing(SanitizeLabel(agentName.value).value))) ==> !ok)
      && ((forall q :: !confirm(q)) && (exists j :: 0 <= j < |tagPaths| && ResolvePath(tags, tagPaths[j]).Err?) ==> !ok)
    ensures due.Some? && due.value > now ==>
      !PaymentOk(users, currencies, agents, tags, me, recipientName, due, now, currency, originalAmount, agentName, tagPaths, confirm)
  {
    if (forall q :: !confirm(q)) && TagsFor(tags, tagPaths, confirm).Ok? {
      TagsForDeclined(tags, tagPaths, confirm);
    }
  }

  /**
   * Exactly `amount` moved from user `from` to user `to`: their balances
   * changed by it and every other user row is as before.
   */
  ghost predicate Transferred(users0: seq<User>, users: seq<User>, from: nat, to: nat, amount: int) {
    && |users| == |users0| && from < |users| && to < |users|
    && users[to].balance == users0[to].balance + amount
    && users[from].balance == users0[from].balance - amount
    && (forall v :: 0 <= v < |users| && v != from && v != to ==> users[v] == users0[v])
  }

  /** Balances moved by the net of a single row move exactly the row's two users. */
  lemma SingleRowBalances(users0: seq<User>, users: seq<User>, row: Transaction, sender: nat, recipient: nat, amount: int)
    requires sender < |users0| && recipient < |users0| && sender != recipient && |users| == |users0|
    requires Delta(row, recipient) == amount && Delta(row, sender) == -amount
    requires forall v :: v != sender && v != recipient ==> Delta(row, v) == 0
    requires forall v :: 0 <= v < |users| ==> users[v] == users0[v].(balance := users0[v].balance + Net([row], v))
    ensures Transferred(users0, users, sender, recipient, amount)
  {
    forall v | 0 <= v < |users| ensures Net([row], v) == Delta(row, v) {
      NetSingle(row, v);
    }
  }

  /**
   * The commit that ends `pay`: the new agent, the grown tag table and the
   * one row, all or nothing; the row moves exactly `amount` from the sender
   * to the recipient.
   */
  method CommitPayment(db: Database, p: Prepared, ghost sender: nat, ghost recipient: nat, ghost amount: int)
      returns (ok: bool)
    requires db.Wf() && sender < |db.users| && recipient < |db.users| && sender != recipient
    requires p.agent.Some? ==> AgentId(db.agents, p.agent.value.name).None?
    requires |db.tags| <= |p.tags| && p.tags[..|db.tags|] == db.tags && TagsUnique(p.tags) && TagsAcyclic(p.tags)
    requires Delta(p.row, recipient) == amount && Delta(p.row, sender) == -amount
    requires forall v :: v != sender && v != recipient ==> Delta(p.row, v) == 0
    modifies db`users, db`txs, db`agents, db`tags
    ensures db.Wf()
    ensures ok <==> RowsAdmissible([p.row], SizesAfter(old(db.Sizes()), p.agent, p.tags))
    ensures ok ==> && db.txs == old(db.txs) + [p.row] && db.agents == old(db.agents) + NewAgents(p.agent) && db.tags == p.tags
                   && Transferred(old(db.users), db.users, sender, recipient, amount)
    ensures !ok ==> db.users == old(db.users) && db.txs == old(db.txs) && db.agents == old(db.agents) && db.tags == old(db.tags)
    ensures old(db.Consistent()) ==> db.Consistent()
    ensures old(db.Conserved()) ==> db.Conserved()
  {
    ok := Commit(db, p.agent, p.tags, [p.row]);
    if ok {
      SingleRowBalances(old(db.users), db.users, p.row, sender, recipient, amount);
    }
  }

  /**
   * `pay`: the recipient's balance changes by exactly the signed amount and
   * the sender's by its negation; any error leaves the store unchanged.
   */
  method Pay(db: Database, me: string, recipientName: string, amount: int, due: Option<int>, now: int,
             currency: Option<string>, originalAmount: Option<int>, agentName: Option<string>,
             note: Option<string>, tagPaths: seq<string>, confirm: Question -> bool)
      returns (r: Outcome<Error>)
    requires db.Wf()
    modifies db`users, db`txs, db`agents, db`tags
    ensures db.Wf()
    ensures r.Fail? ==> db.users == old(db.users) && db.txs == old(db.txs)
                        && db.agents == old(db.agents) && db.tags == old(db.tags)
    ensures SanitizeUserName(recipientName).Err? ==> r == Fail(InvalidName)
    ensures r.Pass? <==> PaymentOk(old(db.users), old(db.currencies), old(db.agents), old(db.tags), me, recipientName,
                                   due, now, currency, originalAmount, agentName, tagPaths, confirm)
    ensures r.Pass? ==>
      var p := PaymentFor(old(db.users), old(db.currencies), old(db.agents), old(db.tags), me, recipientName, amount, due,
                          now, currency, originalAmount, agentName, note, tagPaths, confirm);
      db.txs == old(db.txs) + [p.row] && db.agents == old(db.agents) + NewAgents(p.agent) && db.tags == p.tags
    ensures r.Pass? ==>
      && UserId(old(db.users), me).Some? && SanitizeUserName(recipientName).Ok?
      && UserId(old(db.users), SanitizeUserName(recipientName).value).Some?
    ensures r.Pass? ==>
      var sender := UserId(old(db.users), me).value;
      var recipient := UserId(old(db.users), SanitizeUserName(recipientName).value).value;
      && sender != recipient
      && Transferred(old(db.users), db.users, sender, recipient, amount)
    ensures old(db.Consistent()) ==> db.Consistent()
    ensures old(db.Conserved()) ==> db.Conserved()
  {
    ghost var n0 := db.Sizes();
    var prepared := PreparePayment(db, me, recipientName, amount, due, now, currency, originalAmount,
                                   agentName, note, tagPaths, confirm);
    if prepared.Err? {
      r := Fail(prepared.error);
    } else {
      var p := prepared.value;
      PaymentForAdmissible(old(db.users), old(db.currencies), old(db.agents), old(db.tags), me, recipientName, amount,
                           due, now, currency, originalAmount, agentName, note, tagPaths, confirm, n0);
      var ok := CommitPayment(db, p, UserId(old(db.users), me).value,
                              UserId(old(db.users), SanitizeUserName(recipientName).value).value, amount);
      r := if ok then Pass else Fail(IntegrityError);
    }
  }

  // ---------------------------------------------------------------------------
  // import_df

  /** One row of the imported table: `amount`, `dt_due` and `note`. */
  datatype ImportRow = ImportRow(amount: int, dtDue: int, note: string)

  /**
   * The transaction an imported row becomes: a positive amount moves money
   * from user2 to user1, any other amount from user1 to user2, and the payer
   * is recorded as its creator.
   */
  function ImportedRow(row: ImportRow, user1: nat, user2: nat, agent: nat, now: int): (t: Transaction)
    ensures t.userCreated == Some(t.userFrom) && t.convertedAmount >= 0
    ensures user1 != user2 ==> Delta(t, user1) == row.amount && Delta(t, user2) == -row.amount
  {
    var (from, to) := if row.amount > 0 then (user2, user1) else (user1, user2);
    Transaction(from, to, Some(from), None, None, Abs(row.amount), None, Some(agent),
                if row.note == "" then None else Some(row.note), now, row.dtDue, {})
  }

  function ImportedRows(rows: seq<ImportRow>, user1: nat, user2: nat, agent: nat, now: int): (r: seq<Transaction>)
    ensures |r| == |rows|
    ensures forall k :: 0 <= k < |rows| ==> r[k] == ImportedRow(rows[k], user1, user2, agent, now)
  {
    if rows == [] then []
    else ImportedRows(rows[..|rows| - 1], user1, user2, agent, now) + [ImportedRow(rows[|rows| - 1], user1, user2, agent, now)]
  }

  /** The sum of the imported amounts: user1's balance change. */
  function SumAmounts(rows: seq<ImportRow>): int {
    if rows == [] then 0 else SumAmounts(rows[..|rows| - 1]) + rows[|rows| - 1].amount
  }

  /** The running `user1_balance` reported to the user is the change user1's balance will see. */
  lemma {:induction false} ImportedNet(rows: seq<ImportRow>, user1: nat, user2: nat, agent: nat, now: int)
    requires user1 != user2
    ensures Net(ImportedRows(rows, user1, user2, agent, now), user1) == SumAmounts(rows)
    ensures Net(ImportedRows(rows, user1, user2, agent, now), user2) == -SumAmounts(rows)
    decreases |rows|
  {
    if rows != [] {
      var front := rows[..|rows| - 1];
      var last := ImportedRow(rows[|rows| - 1], user1, user2, agent, now);
      ImportedNet(front, user1, user2, agent, now);
      NetSnoc(ImportedRows(front, user1, user2, agent, now), last, user1);
      NetSnoc(ImportedRows(front, user1, user2, agent, now), last, user2);
    }
  }

  /**
   * `import_df`'s loop over the table: each entry becomes a pending row and
   * its amount is added to the running `user1_balance`.
   */
  method ImportLoop(rows: seq<ImportRow>, user1: nat, user2: nat, agent: nat, now: int)
      returns (pending: seq<Transaction>, user1Balance: int, count: nat)
    ensures pending == ImportedRows(rows, user1, user2, agent, now)
    ensures user1Balance == SumAmounts(rows) && count == |rows|
  {
    pending, user1Balance, count := [], 0, 0;
    while count < |rows|
      invariant 0 <= count <= |rows|
      invariant pending == ImportedRows(rows[..count], user1, user2, agent, now)
      invariant user1Balance == SumAmounts(rows[..count])
    {
      var row := rows[count];
      var from, to := user1, user2;
      if row.amount > 0 {
        from, to := user2, user1;
      }
      var note := if row.note == "" then None else Some(row.note);
      user1Balance := user1Balance + row.amount;
      pending := pending + [Transaction(from, to, Some(from), None, None, Abs(row.amount), None, Some(agent), note, now, row.dtDue, {})];
      assert rows[..count + 1][..count] == rows[..count];
      count := count + 1;
    }
    assert rows[..count] == rows;
  }

  /** What `import_df` stores once the user confirms: the pending rows and an agent to create. */
  datatype Import = Import(rows: seq<Transaction>, agent: Option<Agent>, agentId: nat, user1: nat, user2: nat, user1Balance: int)

  /**
   * Every lookup and confirmation of `import_df` succeeds: the three names are
   * valid, the agent exists or its creation is confirmed, both users exist
   * and the summary of the rows is confirmed.
   */
  predicate ImportOk(users: seq<User>, agents: seq<Agent>, rows: seq<ImportRow>, user1Name: string, user2Name: string,
                     agentName: string, confirm: Question -> bool) {
    && SanitizeLabel(agentName).Ok? && SanitizeUserName(user1Name).Ok? && SanitizeUserName(user2Name).Ok?
    && (AgentId(agents, SanitizeLabel(agentName).value).Some? || confirm(AgentMissing(SanitizeLabel(agentName).value)))
    && UserId(users, SanitizeUserName(user1Name).value).Some?
    && UserId(users, SanitizeUserName(user2Name).value).Some?
    && confirm(ImportSummary(|rows|, SumAmounts(rows)))
  }

  /** Each way a lookup or a confirmation of `import_df` can fail. */
  lemma ImportNotOk(users: seq<User>, agents: seq<Agent>, rows: seq<ImportRow>, user1Name: string, user2Name: string,
                    agentName: string, confirm: Question -> bool)
    ensures var ok := ImportOk(users, agents, rows, user1Name, user2Name, agentName, confirm);
      && (SanitizeUserName(user1Name).Ok? && UserId(users, SanitizeUserName(user1Name).value).None? ==> !ok)
      && (SanitizeUserName(user2Name).Ok? && UserId(users, SanitizeUserName(user2Name).value).None? ==> !ok)
      && (!confirm(ImportSummary(|rows|, SumAmounts(rows))) ==> !ok)
  {
  }

  /** What `import_df` hands to the commit once its lookups and confirmations have succeeded. */
  function ImportFor(users: seq<User>, agents: seq<Agent>, rows: seq<ImportRow>, user1Name: string, user2Name: string,
                     agentName: string, now: int, confirm: Question -> bool): (p: Import)
    requires ImportOk(users, agents, rows, user1Name, user2Name, agentName, confirm)
    ensures UserId(users, SanitizeUserName(user1Name).value) == Some(p.user1)
    ensures UserId(users, SanitizeUserName(user2Name).value) == Some(p.user2)
    ensures p.rows == ImportedRows(rows, p.user1, p.user2, p.agentId, now) && p.user1Balance == SumAmounts(rows)
    ensures match AgentId(agents, SanitizeLabel(agentName).value)
      case Some(k) => p.agent.None? && p.agentId == k
      case None => p.agent == Some(Agent(SanitizeLabel(agentName).value, None)) && p.agentId == |agents|
  {
    var (agentId, newAgent) := AgentFor(agents, Some(agentName));
    var user1 := UserId(users, SanitizeUserName(user1Name).value).value;
    var user2 := UserId(users, SanitizeUserName(user2Name).value).value;
    Import(ImportedRows(rows, user1, user2, agentId.value, now), newAgent, agentId.value, user1, user2, SumAmounts(rows))
  }

  /**
   * The imported rows pass the store's constraints: the two users differ
   * (when there is a row at all) and no row is due after the import instant.
   */
  predicate ImportRowsOk(rows: seq<ImportRow>, user1: nat, user2: nat, now: int) {
    (rows != [] ==> user1 != user2) && forall k :: 0 <= k < |rows| ==> rows[k].dtDue <= now
  }

  /** `import_df` stores its rows: every lookup and confirmation succeeds and the rows pass the constraints. */
  predicate ImportSucceeds(users: seq<User>, agents: seq<Agent>, rows: seq<ImportRow>, user1Name: string, user2Name: string,
                           agentName: string, now: int, confirm: Question -> bool) {
    && ImportOk(users, agents, rows, user1Name, user2Name, agentName, confirm)
    && ImportRowsOk(rows, UserId(users, SanitizeUserName(user1Name).value).value,
                    UserId(users, SanitizeUserName(user2Name).value).value, now)
  }

  /** The store accepts imported rows whose users and agent exist exactly when `ImportRowsOk` holds. */
  lemma ImportedRowsAdmissible(rows: seq<ImportRow>, user1: nat, user2: nat, agent: nat, now: int, n: Sizes)
    requires user1 < n.users && user2 < n.users && agent < n.agents
    ensures RowsAdmissible(ImportedRows(rows, user1, user2, agent, now), n) <==> ImportRowsOk(rows, user1, user2, now)
  {
    var txs := ImportedRows(rows, user1, user2, agent, now);
    if RowsAdmissible(txs, n) {
      if rows != [] {
        assert RowAdmissible(txs[0], n);
      }
      forall k | 0 <= k < |rows| ensures rows[k].dtDue <= now {
        assert RowAdmissible(txs[k], n);
      }
    }
  }

  /** Everything `import_df` does before `session.commit()`. */
  method PrepareImport(db: Database, rows: seq<ImportRow>, user1Name: string, user2Name: string, agentName: string,
                       now: int, confirm: Question -> bool) returns (r: Result<Import, Error>)
    requires db.Wf()
    ensures SanitizeLabel(agentName).Err? || SanitizeUserName(user1Name).Err? || SanitizeUserName(user2Name).Err?
            ==> r == Err(InvalidName)
    ensures (SanitizeLabel(agentName).Ok? && SanitizeUserName(user1Name).Ok? && SanitizeUserName(user2Name).Ok?
             && AgentId(db.agents, SanitizeLabel(agentName).value).None? && !confirm(AgentMissing(SanitizeLabel(agentName).value)))
            ==> r == Err(Declined(AgentName))
    ensures r.Ok? <==> ImportOk(db.users, db.agents, rows, user1Name, user2Name, agentName, confirm)
    ensures r.Ok? ==> r.value == ImportFor(db.users, db.agents, rows, user1Name, user2Name, agentName, now, confirm)
  {
    var agentValid := SanitizeLabel(agentName);
    if agentValid.Err? {
      return Err(agentValid.error);
    }
    var user1Valid := SanitizeUserName(user1Name);
    if user1Valid.Err? {
      return Err(user1Valid.error);
    }
    var user2Valid := SanitizeUserName(user2Name);
    if user2Valid.Err? {
      return Err(user2Valid.error);
    }
    var agentId := AgentId(db.agents, agentValid.value);
    var newAgent: Option<Agent> := None;
    if agentId.None? {
      if !confirm(AgentMissing(agentValid.value)) {
        return Err(Declined(AgentName));
      }
      newAgent := Some(Agent(agentValid.value, None));
      agentId := Some(|db.agents|);
    }
    var user1 := UserId(db.users, user1Valid.value);
    if user1.None? {
      return Err(NotFound(User1));
    }
    var user2 := UserId(db.users, user2Valid.value);
    if user2.None? {
      return Err(NotFound(User2));
    }
    var pending, user1Balance, count := ImportLoop(rows, user1.value, user2.value, agentId.value, now);
    if !confirm(ImportSummary(count, user1Balance)) {
      return Err(Cancelled);
    }
    return Ok(Import(pending, newAgent, agentId.value, user1.value, user2.value, user1Balance));
  }

  /** The balance change an import commits: user1 gains the sum, user2 loses it, nobody else changes. */
  lemma ImportBalances(users0: seq<User>, users: seq<User>, rows: seq<ImportRow>, txs: seq<Transaction>,
                        user1: nat, user2: nat, agent: nat, now: int)
    requires user1 < |users0| && user2 < |users0| && |users| == |users0|
    requires rows != [] ==> user1 != user2
    requires txs == ImportedRows(rows, user1, user2, agent, now)
    requires forall v :: 0 <= v < |users| ==> users[v] == users0[v].(balance := users0[v].balance + Net(txs, v))
    ensures users[user1].balance == users0[user1].balance + SumAmounts(rows)
    ensures users[user2].balance == users0[user2].balance - SumAmounts(rows)
    ensures forall v :: 0 <= v < |users| && v != user1 && v != user2 ==> users[v] == users0[v]
  {
    if user1 != user2 {
      ImportedNet(rows, user1, user2, agent, now);
    } else {
      assert rows == [] && txs == [];
    }
    forall v | 0 <= v < |users| && v != user1 && v != user2 ensures Net(txs, v) == 0 {
      NetOfUnreferenced(txs, v);
    }
  }

  /** The commit that ends `import_df`: the new agent and the pending rows, all or nothing. */
  method CommitImport(db: Database, rows: seq<ImportRow>, p: Import, now: int) returns (ok: bool)
    requires db.Wf()
    requires p.user1 < |db.users| && p.user2 < |db.users|
    requires p.rows == ImportedRows(rows, p.user1, p.user2, p.agentId, now)
    requires p.agent.Some? ==> AgentId(db.agents, p.agent.value.name).None?
    modifies db`users, db`txs, db`agents, db`tags
    ensures db.Wf()
    ensures !ok ==> db.users == old(db.users) && db.txs == old(db.txs)
                    && db.agents == old(db.agents) && db.tags == old(db.tags)
    ensures ok <==> RowsAdmissible(p.rows, SizesAfter(old(db.Sizes()), p.agent, old(db.tags)))
    ensures ok ==> db.txs == old(db.txs) + p.rows && db.agents == old(db.agents) + NewAgents(p.agent) && db.tags == old(db.tags)
    ensures ok ==> (rows != [] ==> p.user1 != p.user2) && Transferred(old(db.users), db.users, p.user2, p.user1, SumAmounts(rows))
    ensures old(db.Consistent()) ==> db.Consistent()
    ensures old(db.Conserved()) ==> db.Conserved()
  {
    ghost var txs0, users0, n0 := db.txs, db.users, db.Sizes();
    ok := Commit(db, p.agent, db.tags, p.rows);
    if !ok {
      return;
    }
    if rows != [] {
      assert RowAdmissible(p.rows[0], SizesAfter(n0, p.agent, db.tags));
      assert p.rows[0].userFrom != p.rows[0].userTo;
    }
    ImportBalances(users0, db.users, rows, p.rows, p.user1, p.user2, p.agentId, now);
  }

  /**
   * `import_df`: all rows are stored or none; on success user1's balance
   * changes by the sum of the amounts and user2's by its negation.
   */
  method ImportDf(db: Database, rows: seq<ImportRow>, user1Name: string, user2Name: string, agentName: string,
                  now: int, confirm: Question -> bool) returns (r: Outcome<Error>)
    requires db.Wf()
    modifies db`users, db`txs, db`agents, db`tags
    ensures db.Wf()
    ensures r.Fail? ==> db.users == old(db.users) && db.txs == old(db.txs)
                        && db.agents == old(db.agents) && db.tags == old(db.tags)
    ensures SanitizeLabel(agentName).Err? || SanitizeUserName(user1Name).Err? || SanitizeUserName(user2Name).Err?
            ==> r == Fail(InvalidName)
    ensures (SanitizeLabel(agentName).Ok? && SanitizeUserName(user1Name).Ok? && SanitizeUserName(user2Name).Ok?
             && AgentId(old(db.agents), SanitizeLabel(agentName).value).None? && !confirm(AgentMissing(SanitizeLabel(agentName).value)))
            ==> r == Fail(Declined(AgentName))
    ensures !confirm(ImportSummary(|rows|, SumAmounts(rows))) ==> r.Fail?
    ensures r.Pass? <==> ImportSucceeds(old(db.users), old(db.agents), rows, user1Name, user2Name, agentName, now, confirm)
    ensures r.Pass? ==>
      var p := ImportFor(old(db.users), old(db.agents), rows, user1Name, user2Name, agentName, now, confirm);
      && db.txs == old(db.txs) + p.rows && db.agents == old(db.agents) + NewAgents(p.agent) && db.tags == old(db.tags)
      && p.rows == ImportedRows(rows, p.user1, p.user2, p.agentId, now)
      && Transferred(old(db.users), db.users, p.user2, p.user1, SumAmounts(rows))
    ensures old(db.Consistent()) ==> db.Consistent()
    ensures old(db.Conserved()) ==> db.Conserved()
  {
    var prepared := PrepareImport(db, rows, user1Name, user2Name, agentName, now, confirm);
    if prepared.Err? {
      return Fail(prepared.error);
    }
    var p := prepared.value;
    ImportedRowsAdmissible(rows, p.user1, p.user2, p.agentId, now, SizesAfter(db.Sizes(), p.agent, db.tags));
    var ok := CommitImport(db, rows, p, now);
    if !ok {
      return Fail(IntegrityError);
    }
    return Pass;
  }
}
