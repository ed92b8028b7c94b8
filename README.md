# mpay ledger engine, modelled in Dafny

mpay is a small shared-expenses ledger. Users owe each other money, and
every payment is a row in a `transactions` table. Three database triggers
keep each user's `balance` equal to what the user received minus what the
user paid. On top of that the engine offers:

- user, agent and tag creation;
- payments (`pay`), with a sign convention that always stores a non-negative amount;
- bulk import from a table (`import_df`);
- standing orders, which pay a fixed amount at every occurrence of a recurrence rule (`create_order`, `execute_orders`, `disable_order`);
- hierarchical tags such as `a/b/tag2`;
- an integrity `check`.

A schema migration (revision 931cbe1524ae) rewrote negative transactions into
non-negative ones.

The model is split into one module per concern:

| file | module | models |
|---|---|---|
| common.dfy | `Common` | `Option`, `Result`, `Outcome`, the questions the engine asks, its errors |
| text.dfy | `Text` | `str.strip`, `str.split` with one separator, `str.lower` on ASCII |
| schema.dfy | `Schema` | the tables of `mpay/db.py`, their CHECK and UNIQUE constraints, `hierarchical_name`, signed sums, currency seeding, `check_revision` |
| ledger.dfy | `Ledger` | class `Database`: the tables as fields; the insert, update and delete triggers as methods |
| names.dfy | `Names` | the four `sanitize_*` functions |
| tags.dfy | `Tags` | `find_tag`, `create_hierarchical_tag`, `create_tag` |
| payments.dfy | `Payments` | `create_user`, `create_agent`, `pay`, `import_df` |
| orders.dfy | `Orders` | `_execute_order`, `execute_orders`, `create_order`, `disable_order` |
| checker.dfy | `Checker` | `check` |
| migration.dfy | `Migration` | `upgrade` and `downgrade` of 931cbe1524ae |
| cli.dfy | `Cli` | `strtobool`, the `ask_confirmation` prompt loop, the `--tags` splitter |

How the model represents the system:

- **Money.** Amounts are integers counting thousandths.
- **Time.** Instants are integers, and "now" is a parameter.
- **Row identity.** Each table is a sequence, and a row's id is its position in it.
- **Sessions.** Every engine operation computes its changes and then commits them. An operation that raises leaves the store as it was; in the model, that restore is an explicit assignment of snapshots.
- **Callbacks.** The `ask_confirmation` callback is a parameter `confirm: Question -> bool`.
- **Recurrence rules.** A dateutil rule is a parameter `after: (string, int) -> Option<int>`. The rule's first occurrence (`rrule[0]`) is the parameter `first`.

What is proved:

- **Balance invariants.** Every trigger and every operation keeps both ledger invariants:
  - each balance equals its user's incoming minus outgoing (`Database.Consistent`);
  - the balances sum to zero (`Database.Conserved`).
- **No change on error.** Every operation except `execute_orders` changes nothing when it fails. `execute_orders` commits order by order, so on failure it keeps the orders it already committed and rolls back only the failing one (`Orders.StoppedAt`).
- **Successful operations.** For each, the contract states when it succeeds and the exact new contents of the tables it writes. For `pay`, `import_df` and `execute_orders` the new rows are given by specification functions (`Payments.PaymentFor`, `Payments.ImportFor`, `Orders.SweepRows`), and every balance moves by the net of those rows.
- **Scheduler.** `_execute_order` pays exactly the due instants of a catch-up sequence. That sequence is strictly increasing and ends at the first instant after now. A strictly increasing rule never trips the assertion at `mpay/mpay.py:420`.
- **`check`.** When the sqlite integrity and foreign-key checks pass, it passes exactly when both invariants hold, so on a store the triggers maintain it cannot fail.
- **Migration.** The rewrite is balance-neutral and idempotent. `downgrade` does not undo it.

`test_order` (tests/test_mpay.py:178-243) starts a daily order five days
before today and expects the recipient to hold 6.03 after
`execute_orders`: six payments of 1, today included, and three of 0.01.
`Orders.TestOrderScenario` and `Orders.TestOrderTotal` state this.

## Model

| member | source | states |
|---|---|---|
| Text.Strip | mpay/mpay.py:163 | the result is the input without its longest whitespace prefix and suffix; it neither starts nor ends with whitespace |
| Text.SplitPieces | mpay/mpay.py:163 | `split(c)` yields one more piece than there are separators, none containing the separator |
| Text.JoinSplit | mpay/mpay.py:163 | joining the pieces of a split with the separator gives back the string |
| Text.SplitJoin | mpay/cli.py:197 | splitting a join of separator-free pieces gives back the pieces |
| Text.Lower | mpay/cli.py:35 | lower-casing keeps the length and maps each character through ASCII lower-casing |
| Schema.UserId | mpay/mpay.py:243-246 | the by-name lookup of a user finds a user with that name, and finds none exactly when no user has it |
| Schema.UserIdUnique | mpay/db.py:61 | with unique user names, the lookup by a user's own name returns that user |
| Schema.AgentId | mpay/mpay.py:268 | `one_or_none` on agents: found agent has the name; none exactly when no agent has it |
| Schema.CurrencyId | mpay/mpay.py:258-263 | the currency lookup finds a currency with that ISO 4217 code, and finds none exactly when no currency has it |
| Schema.OrderId | mpay/mpay.py:492-495 | the lookup by (name, user_from) finds a matching order, and finds none exactly when no order matches |
| Schema.NamePath | mpay/db.py:95-99 | the path of names from the root to a tag ends with the tag's own name |
| Schema.HierarchicalNameIsJoin | mpay/db.py:95-99 | `hierarchical_name` is the root-to-tag names joined by "/" |
| Schema.HierarchicalNameStable | mpay/db.py:95-99 | adding tags does not change an existing tag's `hierarchical_name` |
| Schema.NetAppend | mpay/mpay.py:538-557 | incoming minus outgoing over two tables of rows is the sum over each |
| Schema.NetReplace | mpay/db.py:168-180 | replacing a row changes a user's net by the new row's delta minus the old row's delta |
| Schema.NetRemove | mpay/db.py:194-204 | removing a row takes its delta off every user's net |
| Schema.BalanceSumUpdate | mpay/db.py:168-204 | changing one balance changes the balance sum by the same amount |
| Schema.NetTotalZero | mpay/mpay.py:527-532 | when every row moves money between existing users, the users' nets sum to zero |
| Schema.BalanceSumIsNetTotal | mpay/mpay.py:527-557 | when every balance equals its net, the balance sum equals the sum of the nets |
| Schema.InsertOrIgnore | mpay/db.py:279-285 | insert-or-ignore keeps existing rows, makes the code present and keeps codes unique |
| Schema.SeedCurrencies | mpay/db.py:271-287 | seeding keeps existing rows, adds USD and EUR, and keeps codes unique |
| Schema.CodeCountUnique | mpay/db.py:75 | with unique codes, a code occurs once if present and not at all otherwise |
| Schema.SeedCurrenciesIdempotent | mpay/db.py:271-287 | seeding twice equals seeding once, and USD and EUR each occur exactly once |
| Schema.CheckRevision | mpay/db.py:246-256 | true exactly when the current revision is the head revision |
| Ledger.Database.constructor | mpay/db.py:259-269 | a new store is empty, well formed, consistent and conserved |
| Ledger.Database.AdjustBalance | mpay/db.py:168-204 | one `UPDATE users SET balance = balance ± amount` statement: only that user's balance moves, and the balance sum moves by the same amount |
| Ledger.Database.ApplyRow | mpay/db.py:182-204 | applying (or undoing) one row moves exactly the two users' balances by its delta and keeps the balance sum |
| Ledger.Database.Insert | mpay/db.py:182-192 | an admissible row is appended; the sender loses and the recipient gains the amount; no other balance changes; a rejected row changes nothing; both invariants are kept |
| Ledger.Database.Update | mpay/db.py:168-180 | an admissible replacement undoes the old row and applies the new one; updating a row to itself changes no balance; both invariants are kept |
| Ledger.Database.Delete | mpay/db.py:194-204 | the row is removed and its delta taken off every balance; both invariants are kept |
| Ledger.Database.InsertUser | mpay/db.py:58-61 | a user with a new name is appended, a duplicate name is rejected; a zero-balance user keeps both invariants |
| Ledger.Database.InsertAgent | mpay/db.py:102-106 | an agent with a new name is appended, a duplicate name is rejected |
| Ledger.Database.InsertTag | mpay/db.py:79-93 | a tag is appended exactly when its parent exists and no tag has the same name under the same parent, a missing parent counting as a parent; this is the corrected uniqueness of the Findings row, since the store as written accepts duplicate roots |
| Ledger.Database.InsertOrder | mpay/db.py:109-131 | an order is appended exactly when it meets the CHECK constraints, refers to existing users and has a new (name, user_from) |
| Ledger.Database.SetOrderNext | mpay/mpay.py:421-423 | only `dt_next_utc` of the one order changes |
| Ledger.NetOfUnreferenced | mpay/mpay.py:538-557 | a user that no row mentions has incoming minus outgoing zero |
| Ledger.InsertThenDelete | mpay/db.py:182-204 | inserting a row and then deleting it restores every balance and the table |
| Names.SanitizeUserName | mpay/mpay.py:131-135 | accepts exactly the names that, once stripped, are non-empty strings of `[a-z0-9_]`, and returns the stripped name |
| Names.SanitizeLabel | mpay/mpay.py:137-159 | accepts exactly the names that, once stripped, are non-empty strings of `[a-zA-Z0-9_-]`, and returns the stripped name (tag, order and agent names) |
| Names.LabelIsStripped | mpay/mpay.py:137-159 | a valid name has no surrounding whitespace, so stripping keeps it |
| Names.UserNameIsLabel | mpay/mpay.py:131-159 | every valid user name is also a valid tag, order and agent name |
| Names.SanitizeUserNameIdempotent | mpay/mpay.py:131-135 | sanitizing a sanitized user name returns it unchanged |
| Names.SanitizeLabelIdempotent | mpay/mpay.py:137-159 | sanitizing a sanitized label returns it unchanged |
| Names.SanitizeUserNameRejects | mpay/mpay.py:133 | any character outside `[a-z0-9_]` that trimming keeps, i.e. one lying between two non-whitespace characters, makes the name invalid |
| Names.SanitizeUserNameRejectsExamples | tests/test_mpay.py:103-108 | "Uppercase" and "user with space" are not user names |
| Tags.Matches | mpay/mpay.py:167 | the ids of the tags with a given name and parent, in id order |
| Tags.OneOrNone | mpay/mpay.py:184 | `one_or_none`: none exactly when no tag matches; the unique match when there is one; `MultipleFound` exactly when two tags match |
| Tags.One | mpay/mpay.py:167 | `one`: the match, `NotFound` when there is none, `MultipleFound` when there are several |
| Tags.FindTag | mpay/mpay.py:161-170 | the loop over the path segments computes `ResolvePath` |
| Tags.OneFinds | mpay/mpay.py:167 | with unique tags, looking up a tag's own (name, parent) returns that tag |
| Tags.UniqueTagsUnambiguous | mpay/db.py:89 | with (name, parent) unique, a path walk never reports `MultipleFound` |
| Tags.ResolveHierarchicalName | mpay/mpay.py:161-170 | `find_tag(t.hierarchical_name)` returns `t` |
| Tags.ResolveSound | mpay/mpay.py:161-170 | the tag `find_tag` returns has the stripped path as its `hierarchical_name` |
| Tags.ResolveInjective | mpay/mpay.py:161-170 | two paths that resolve to the same tag are equal once stripped |
| Tags.RootTagDistinctFromNested | tests/test_mpay.py:298-314 | "tag2" and "a/b/tag2" never resolve to the same tag |
| Tags.CreateHierarchicalTag | mpay/mpay.py:172-192 | the loop over the segments computes `EnsurePath`: reuse each existing segment, create the missing ones; it works over the store with the corrected root uniqueness of the Findings row |
| Tags.EnsurePathGrows | mpay/mpay.py:172-192 | creation only appends tags, at most one per segment, and keeps the tag table unique, acyclic and validly named |
| Tags.EnsureExisting | mpay/mpay.py:172-178 | when the tag already exists no tag is created and the existing one is returned |
| Tags.CreateThenFind | mpay/mpay.py:172-192 | after creation the tag tree stays acyclic, and `find_tag` on the same path returns the created tag |
| Tags.CreateTag | mpay/mpay.py:194-210 | succeeds exactly when the name is valid, the parent path (if any) resolves and no sibling has the name; fails with `NotFound(ParentTag)` exactly when the parent is missing; on success one tag is appended whose `hierarchical_name` is the parent's plus "/" plus the name; failure changes nothing. "No sibling" includes root siblings: this follows the corrected uniqueness of the Findings row, since the store as written accepts duplicate roots |
| Tags.DuplicateRootsAmbiguous | mpay/db.py:89 | two root tags named "x" satisfy the SQL unique constraint, and `find_tag("x")` then raises `MultipleFound` |
| Payments.Abs | mpay/mpay.py:295 | `abs` returns the value or its negation, never negative |
| Payments.CreateUser | mpay/mpay.py:65-70 | succeeds exactly for a valid, unused name; appends a zero-balance user; keeps both invariants; failure changes nothing |
| Payments.CreateAgent | mpay/mpay.py:212-221 | succeeds exactly for a valid, unused name; appends the agent; failure changes nothing |
| Payments.InsertRows | mpay/mpay.py:383-391 | the rows of one session are inserted in order: all of them when all are admissible, none otherwise, moving each balance by the rows' net |
| Payments.InsertPrefix | mpay/mpay.py:384-391 | rows are inserted in order up to the first one the store rejects; each stored row moves every balance by its delta, and both invariants are kept |
| Payments.Commit | mpay/mpay.py:303-304 | a session's new agent, tags and rows are committed together, or nothing is |
| Payments.TagsFor | mpay/mpay.py:276-284 | resolving the tag paths only appends tags, and every id it returns is a tag |
| Payments.ResolveTags | mpay/mpay.py:276-284 | the loop over the tag paths computes `TagsFor` |
| Payments.ResolveTag | mpay/mpay.py:277-283 | one path: the tag `find_tag` finds, or, when none exists and the user confirms, the tag `create_hierarchical_tag` makes; a declined confirmation is an error |
| Payments.TagsForGrows | mpay/mpay.py:276-284 | tags created while resolving keep the tag table unique and acyclic |
| Payments.TagsForDeclined | mpay/mpay.py:280-282 | when every confirmation is declined, resolution creates no tag and succeeds only if every path already exists |
| Payments.TagsForExisting | mpay/mpay.py:277-279 | when every path exists, resolution creates nothing and returns exactly the tags the paths resolve to |
| Payments.PaymentRow | mpay/mpay.py:286-302 | the stored row has a non-negative amount, the sender as creator, and moves exactly `amount` from the sender to the recipient whatever its sign |
| Payments.SingleRowBalances | mpay/mpay.py:286-304 | storing the single payment row raises the recipient's balance and lowers the sender's by `amount` and leaves every other balance alone |
| Payments.CurrencyFor | mpay/mpay.py:254-259 | a named currency is found exactly when its code exists, and the id found has that code |
| Payments.AgentFor | mpay/mpay.py:261-268 | no agent without a valid name; an existing agent is reused by id; otherwise a new agent with the sanitized name takes the next id |
| Payments.LookUpParties | mpay/mpay.py:234-268 | succeeds exactly when `PartiesOk` holds (valid recipient name, both users exist and differ, a named currency exists, a named agent is valid and exists or is confirmed); each failing lookup is an error; on success the sender and recipient ids are the users found, the currency is `CurrencyFor` and the agent is `AgentFor` |
| Payments.PreparePayment | mpay/mpay.py:238-302 | succeeds exactly when `PartiesOk` holds and every tag path resolves or is created (`TagsFor`); the result is exactly `PaymentFor`: the row, the new agent and the grown tag table |
| Payments.PaymentNotOk | mpay/mpay.py:234-284 | each error case of `pay` (missing recipient, missing current user, paying oneself, unknown currency, declined agent, declined tag, due date in the future) rules out success |
| Payments.PaymentRowAdmissible | mpay/db.py:154-163 | the store accepts the payment row exactly when its due date is not in the future and it has an original amount exactly when it has an original currency |
| Payments.PaymentForAdmissible | mpay/mpay.py:286-304 | the prepared payment row passes the store's constraints under the same two conditions |
| Payments.CommitPayment | mpay/mpay.py:303-304 | the agent, tags and row are committed together or not at all; on success the row moves exactly `amount` from sender to recipient |
| Payments.Pay | mpay/mpay.py:223-304 | succeeds exactly when `PaymentOk` holds: every lookup succeeds, every tag resolves, the due date is not in the future and the original amount and currency come together; on success the transactions gain exactly `PaymentFor`'s row, the agents its new agent, and the tags become its grown table; the recipient gains and the sender loses `amount`, and no other balance changes; failure changes nothing; both invariants are kept |
| Payments.ImportedRow | mpay/mpay.py:357-381 | a positive amount is paid by user2 to user1, otherwise by user1 to user2, with the absolute amount, the payer as creator, and a net of `amount` for user1 |
| Payments.ImportedRows | mpay/mpay.py:353-386 | one row per input row, in order |
| Payments.ImportedNet | mpay/mpay.py:366-369 | over the imported rows, user1's net is the sum of the amounts and user2's is its negation |
| Payments.ImportLoop | mpay/mpay.py:353-386 | the loop builds the rows, sums the amounts into `user1_balance` and counts the rows |
| Payments.ImportFor | mpay/mpay.py:338-384 | the import's users are the users found by name, its rows are `ImportedRows`, its reported balance is the sum of the amounts, and the agent is reused or created as the source does |
| Payments.ImportNotOk | mpay/mpay.py:345-389 | a missing user1, a missing user2 or a declined summary rules out the import |
| Payments.ImportedRowsAdmissible | mpay/db.py:154-163 | the store accepts the imported rows exactly when the two users differ (when there is a row) and no row is due after the import instant |
| Payments.PrepareImport | mpay/mpay.py:332-389 | invalid names and a declined agent are the errors the source raises; succeeds exactly when `ImportOk` holds; the result is exactly `ImportFor` |
| Payments.ImportBalances | mpay/mpay.py:366-391 | an import moves user1's balance by `user1_balance`, user2's by its negation, and no other balance |
| Payments.CommitImport | mpay/mpay.py:388-391 | commits exactly when every pending row is admissible; then the transactions gain exactly the pending rows and the agents the new agent, the tags are unchanged, and user1 gains and user2 loses the sum of the amounts; otherwise nothing changes |
| Payments.ImportDf | mpay/mpay.py:306-391 | invalid names fail with `InvalidName` and a declined agent with `Declined`; succeeds exactly when `ImportSucceeds` holds (every lookup and confirmation succeeds and the rows are admissible); on success the transactions gain exactly `ImportFor`'s rows, which are `ImportedRows` of the input, and the agents its new agent; user1 gains and user2 loses the sum of the amounts and nobody else's balance moves; any failure changes nothing; both invariants are kept |
| Orders.CatchupShape | mpay/mpay.py:393-425 | the instants the loop pays are strictly increasing, all at or before now, the first is `dt_next_utc`, each next one is the rule's successor, and the loop ends with `None` or an instant after now; the only failure is `NotMonotonic` |
| Orders.CatchupStep | mpay/mpay.py:401-423 | one iteration pays the current instant and continues from the rule's successor |
| Orders.CatchupStuck | mpay/mpay.py:420 | a successor not after the current instant trips the assertion |
| Orders.CatchupMonotone | mpay/mpay.py:420 | with a strictly increasing rule the assertion never fires |
| Orders.CatchupIdempotent | mpay/mpay.py:393-425 | running the order again at the same instant pays nothing and leaves `dt_next_utc` alone |
| Orders.CatchupSplit | mpay/mpay.py:393-425 | catching up to one instant and then to a later one pays the same instants as catching up to the later one directly |
| Orders.DisabledIsTerminal | mpay/mpay.py:394-397 | an order with no next instant pays nothing and stays disabled |
| Orders.OrderPayment | mpay/mpay.py:403-410 | each payment moves the order's amount from its sender to its recipient at the due instant, created by the sender and linked to the order |
| Orders.Payments | mpay/mpay.py:401-410 | one payment per paid instant, in order |
| Orders.PaymentsNet | mpay/mpay.py:401-410 | after n payments the recipient's net is n times the amount, the sender's its negation, everyone else's zero |
| Orders.ExecuteOrder | mpay/mpay.py:393-425 | on success the order's rows are appended, balances move by their net, and `dt_next_utc` becomes the catch-up's end; when the rule is not increasing the order and the tables are unchanged; both invariants are kept |
| Orders.RunOrder | mpay/mpay.py:401-423 | the `while` loop pays every due instant and stops exactly when the rule's successor is past now, `None`, or not increasing |
| Orders.StepOrder | mpay/mpay.py:402-423 | one iteration: pay `due`, compute the successor, and store it as `dt_next_utc` unless it trips the assertion |
| Orders.PayOnce | mpay/mpay.py:405-413 | paying one due instant appends the order's payment row to those already paid and moves every balance by that row's delta, keeping both invariants |
| Orders.NextAfterRunNotOverdue | mpay/mpay.py:401-423 | after a successful run no order is overdue at the run's instant |
| Orders.VisitOrder | mpay/mpay.py:430-432 | fails exactly when the order is selected and its catch-up fails, and then changes nothing; on success the transactions gain exactly `OrderRows` (the order's payments when selected, none otherwise), every balance moves by their net, and only the order's `dt_next_utc` changes |
| Orders.SweepRowsPaySelected | mpay/mpay.py:427-433 | every transaction a run stores pays a selected order, from its sender to its recipient |
| Orders.SweepOrder | mpay/mpay.py:430-432 | one turn of the loop either extends the stored rows by the next order's `OrderRows` and moves that order to its catch-up instant, or stops at that order with it rolled back: the earlier orders stay committed and it and the later ones are unchanged |
| Orders.ExecuteOrders | mpay/mpay.py:427-433 | only orders whose `dt_next_utc` is strictly before now are touched, and only their `dt_next_utc`; success exactly when every selected order's rule is increasing; on success every order's next instant is its catch-up end and none is in the past, the transactions gain exactly `SweepRows`, the rows of every order in id order, and every balance moves by their net; on failure there is an order, selected and with a failing catch-up, such that the orders before it are committed (moved to their catch-up end, exactly their rows stored and credited) while it and the later orders are unchanged; both invariants are kept |
| Orders.ExecuteOrdersSucceeds | mpay/mpay.py:420 | with a strictly increasing rule every selected order succeeds |
| Orders.CreateOrder | mpay/mpay.py:435-474 | invalid names fail with `InvalidName`; an amount at or below zero fails with `InvalidAmount`; missing or identical users, a rule without occurrences and a duplicate (name, user_from) fail; success exactly otherwise, appending the order due at the rule's first occurrence |
| Orders.DisableOrder | mpay/mpay.py:476-504 | an already disabled order returns true without asking; a declined confirmation returns false and changes nothing; otherwise `dt_next_utc` becomes `None` and true is returned; a missing user or order is an error |
| Orders.TestOrderScenario | tests/test_mpay.py:203-234 | the daily order started five days ago pays six times and is next due tomorrow; the three-occurrence order pays three times and expires |
| Orders.TestOrderTotal | tests/test_mpay.py:224-230 | the two orders together move 6.03 to the recipient |
| Checker.Check | mpay/mpay.py:506-557 | passes exactly when the sqlite pragmas pass, the balances sum to zero and every balance is incoming minus outgoing; otherwise reports the first failing check in the order integrity, foreign keys, sum, per-user (each report is produced exactly when the checks before it pass and it fails), naming the first mismatching user in id order |
| Checker.ConsistentIsConserved | mpay/mpay.py:527-557 | when every balance is its net, the balances sum to zero |
| Checker.CheckSound | mpay/mpay.py:527-557 | on a store whose triggers kept the per-user invariant, both balance checks hold |
| Migration.Backfilled | mpay/alembic/versions/931cbe1524ae_transaction_amount_not_negative.py:26-30 | every row ends up with a creator, the old sender when it had none, and nothing else changes |
| Migration.Flipped | mpay/alembic/versions/931cbe1524ae_transaction_amount_not_negative.py:34-41 | a negative row gets its users swapped and both amounts negated, and nothing else changes; other rows are unchanged |
| Migration.MigratedAll | mpay/alembic/versions/931cbe1524ae_transaction_amount_not_negative.py:25-41 | the table after the upgrade, row by row |
| Migration.Backfill | mpay/alembic/versions/931cbe1524ae_transaction_amount_not_negative.py:26-30 | the in-place backfill loop rewrites every row to its backfilled form |
| Migration.Flip | mpay/alembic/versions/931cbe1524ae_transaction_amount_not_negative.py:34-41 | the in-place flip loop rewrites every row to its flipped form |
| Migration.ConstraintsHold | mpay/alembic/versions/931cbe1524ae_transaction_amount_not_negative.py:43-44 | adding the two CHECK constraints succeeds exactly when every row meets them |
| Migration.Upgrade | mpay/alembic/versions/931cbe1524ae_transaction_amount_not_negative.py:21-44 | succeeds exactly when every migrated row has non-negative amounts, leaving the migrated table; otherwise the table is unchanged |
| Migration.Downgrade | mpay/alembic/versions/931cbe1524ae_transaction_amount_not_negative.py:77-82 | only the creator column is dropped |
| Migration.UpgradedRowsOk | mpay/alembic/versions/931cbe1524ae_transaction_amount_not_negative.py:31-44 | a migrated row that passes the new constraints meets the whole current row schema |
| Migration.UpgradeAdmits | mpay/alembic/versions/931cbe1524ae_transaction_amount_not_negative.py:34-44 | the upgrade accepts a row exactly when its original amount is absent or has the sign of its converted amount (zero counting as non-negative) |
| Migration.CreatorAfterUpgrade | mpay/alembic/versions/931cbe1524ae_transaction_amount_not_negative.py:26-41 | the backfilled creator is the new recipient for a flipped row and the sender otherwise |
| Migration.FlipBalanceNeutral | mpay/alembic/versions/931cbe1524ae_transaction_amount_not_negative.py:34-41 | a migrated row moves the same money between the same users |
| Migration.MigratedNet | mpay/alembic/versions/931cbe1524ae_transaction_amount_not_negative.py:34-56 | every user's incoming minus outgoing is the same before and after the upgrade, so no balance needs to change |
| Migration.MigratedIdempotent | mpay/alembic/versions/931cbe1524ae_transaction_amount_not_negative.py:26-41 | running the rewrite again changes nothing |
| Migration.FlipKeepsNonNegative | mpay/alembic/versions/931cbe1524ae_transaction_amount_not_negative.py:40 | rows already meeting the new constraints are not touched |
| Migration.DowngradeKeepsFlip | mpay/alembic/versions/931cbe1524ae_transaction_amount_not_negative.py:77-82 | after upgrade and downgrade, a negative row stays flipped: its amount is the negation of the original |
| Cli.TruthWordsDisjoint | mpay/cli.py:36-39 | no spelling is both a yes and a no |
| Cli.StrToBool | mpay/cli.py:29-41 | true exactly for y, yes, t, true, on, 1 after lower-casing; false exactly for n, no, f, false, off, 0; otherwise the `ValueError` |
| Cli.StrToBoolCaseInsensitive | mpay/cli.py:35 | the result does not depend on the case of ASCII letters |
| Cli.AskConfirmation | mpay/cli.py:44-63 | every reply before the deciding one was invalid and re-prompted; end of input or an empty reply answers no; otherwise the first valid reply decides |
| Cli.SplitTags | mpay/cli.py:197 | one piece per comma-separated field (the number of commas plus one), each piece being its field stripped, so stripped and comma-free |
| Cli.SplitTagsJoin | mpay/cli.py:197 | tag paths without commas or surrounding whitespace come back unchanged from their comma-joined form |

## Left out

- Amounts are unbounded integers of thousandths. The `Numeric(9, 3)` column type is not enforced: neither its precision nor its rounding.
- Float amounts, such as `Decimal` built from CSV floats in `import_df`, are not modelled. Amounts are exact integers.
- Time zones and `astimezone` are left out. Every instant is a UTC integer. The two clock reads of `execute_orders` and `_execute_order` are taken as one instant `now`.
- dateutil recurrence rules are not parsed or evaluated. `rrule.after` is the parameter `after`, and `rrule[0]` is the parameter `first`, where `None` stands for the `IndexError` of a rule without occurrences.
- `pay`'s default `due` is the current time. The model takes it as `now`.
- SQLAlchemy identity, expiry and lazy loading are not modelled. Each operation is all-or-nothing over its session.
- Query results are taken in id order.
- Row ids are positions, so deleting a row renumbers later rows in the model.
- Deleting a tag, with its cascade onto the association table, is not modelled.
- A repeated tag path in `pay` yields one association in the model. Whether the store would reject the duplicate pair is not modelled.
- MySQL behaviour is not modelled. That covers:
  - case-insensitive collations in UNIQUE checks;
  - the `parent_not_self` constraint being created only on sqlite;
  - engine-specific `INSERT IGNORE`.
- `String(n)` column lengths are not enforced.
- Regular-expression `$` also matches before a trailing newline. That case cannot arise after `strip()`, so it is not modelled separately.
- `str.lower()` is modelled on ASCII letters only. Every truth-value spelling is ASCII, so `strtobool` is unaffected.
- `find_tag` does not strip the individual segments of a path. `create_hierarchical_tag` sanitizes only the segments it creates. The model does the same.
- Checker.Check: the results of the sqlite pragmas `integrity_check` and `foreign_key_check` are inputs. The model does not compute them.
- Migration.Upgrade: the new foreign key on `user_created_id` and the `NOT NULL` change are not re-checked. The backfill makes `NOT NULL` hold, and the backfilled value is an existing sender.
- Migration.Upgrade: re-creating the balance triggers is not modelled. `Migration.MigratedNet` shows that the rewrite changes no user's net.
- Payments.PaymentNotOk: the declined-tag error is stated for the case where every confirmation is declined. Mixed answers are covered by `Payments.TagsFor` only.
- These parts of the repository are outside the model:
  - the DataFrame getters and the tag-tree printing in `mpay/mpay.py`, which are presentation only;
  - argparse wiring, `print_df` and `main` in `mpay/cli.py`;
  - `mpay/config.py`, `mpay/gui.py`, `mpay/adm.py` and `demo.py`;
  - the Alembic machinery and the other two migrations.
- Concurrency is not modelled. There is no table locking, and the model is single-threaded.

## Findings

| source | as written | input that shows it | evidently intended | confidence | as-written member | corrected member |
|---|---|---|---|---|---|---|
| mpay/db.py:89 | `UniqueConstraint("name", "parent_id")` treats NULL parents as distinct, so two root tags may share a name | `create_tag("x")` twice; then `find_tag("x")` raises `MultipleResultsFound` and every later payment tagged "x" fails | root tag names unique, like every other level | not executed | Tags.DuplicateRootsAmbiguous (over Schema.SqlTagsUnique) | Tags.UniqueTagsUnambiguous (over Schema.TagsUnique, which the store's well-formedness uses) |
