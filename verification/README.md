# Expense settlement engine: a verified model

The engine records shared expenses in a double-entry, hash-chained ledger and in a store, computes who
owes whom, and settles a group with a greedy two-heap matching. Around that it keeps versioned
balances, an idempotency gate over a TTL cache, and an outbox with a queue. This project models those
parts in Dafny and proves what they guarantee.

`dafny verify dfyconfig.toml` checks everything. Each file holds one module:

| files | what they model |
|---|---|
| `Sums`, `Text`, `StableSort`, `Heapq`, `Options` | finite sums, Python's string order and decimal printing, the list sort, the contract of `heapq` |
| `DebtMatching`, `NetBalances`, `DebtSimplifier` | net balances and the matching loop over its two heaps |
| `ExactSettlement`, `GreedyPlan`, `Optimality` | what the plan settles, which payment comes next, its shape, and how far it is from the shortest plan |
| `Ledger`, `LedgerRuns`, `JournalLines` | posting, the audit, runs of both, and the lines of every kind of journal |
| `HashBinding`, `AlteredEntry`, `AuditErrors`, `RejectedPosting` | what the hash chains commit to, which alterations the audit reports, with which errors, and what a rejected journal leaves behind |
| `Occ`, `OccInterleaving` | versioned entities, `apply_delta`, the retry loop; any number of writers in any interleaving |
| `Splits`, `Store`, `ExpenseService`, `ExpenseCalls`, `Wallets`, `Agreement`, `Reachable`, `ConcurrentExpenses` | splitting an expense, which calls are accepted with which shares, and the money recorded twice: in wallets and in the store |
| `PlanPosting`, `Worker` | settling a group in the worker's own ledger: journals, records and the completion event |
| `Cache`, `IdempotencyGate`, `GatedExpenses` | lazy eviction, concurrent requests with one key, and whole requests: the gate around interleaved expense calls |
| `Messaging`, `Delivery` | outbox, relay, queue, retries and dead letters |

Objects that the program updates in place are classes whose methods are proved equal to a function of
the old state; the theorems are about those functions and about runs of them. Concurrent parts are
state machines with one atomic step for each awaited operation, and their theorems hold for every
sequence of steps. Clocks, UUIDs and the hash function are parameters: a theorem holds for all of them,
and says where it needs a clock that does not run backwards, fresh ids, or a hash without collisions.
A Python dict is its contents together with the insertion order of its keys; where no result depends on
that order, it is its contents alone.

## Where the code and its documentation differ

- The plan of `simplify` is called the optimal minimum (core/debt_simplifier.py:4-5, 72). It is not:
  `Optimality.NotAlwaysOptimal` gives balances where it has four payments and three suffice, and it is
  always less than twice as long as needed. `Optimality.OptimalExactlyWhen` says exactly when it is
  shortest; its condition compares zero-sum groups with the exact rounds of the matching, so it is known
  only once the matching has run. `Optimality.OptimalWhenIrreducible` is the case that balances alone
  decide: no zero-sum sub-group.
- The repository's README.md:156 counts at most 2N operations on the heaps. There are at most 2n-2 pops and as many
  pushes, for n users with a balance that is not zero.
- The hashed payload joins its fields with '|' (core/ledger_engine.py:102-110), and user ids are unchecked
  strings (api/schemas/schemas.py:58) that become account ids. An account id with '|' can be shifted into the
  journal id without changing the hash, so the audit can miss a change of these two fields together
  (`AlteredEntry.ShiftUnnoticed`). A change of any single hashed field is always reported, and so is every
  change while entry and journal ids are UUIDs.
- The hash chains are there for tamper detection (core/ledger_engine.py:86-92). A deleted entry is detected
  exactly when it is not the last of its account (`AlteredEntry.DeletionReportedIff`).
- `post_journal` moves account heads before it checks the balance. A rejected unbalanced journal leaves
  no entry and still makes the audit fail after any later accepted journal that shares an account with it;
  those that share none leave the audit clean (`RejectedPosting`). The two wrappers never get there.
- `apply_delta` checks a version it did not read. In memory it never suspends between its read and its swap
  (core/occ.py:172-175), and then it is safe with any version. Over a store where reading suspends, it is
  safe exactly when that version had been reached at the call.
- A retry limit of `max_retries` is enough for all schedules of W writers exactly when it is at least W-1;
  the default of 5 therefore covers six writers.
- The ledger is posted to before the store looks at the idempotency key, and services/expense_service.py:148
  then overwrites the `journal_id` of the stored expense. A repeated call that gets past the gate makes
  ledger and store disagree, unless neither the call nor the stored expense moves anybody's balance
  (`Agreement.RepeatedKeyDisagrees` is such a call). Behind the gate there is none, as long as no request
  finds the entry of its key expired; one that does can post again (`GatedExpenses.ExpiredKeyPostsAgain`).
- The service and the schema require of an amount that it is at least one cent (services/expense_service.py:100).
  That is not enough: an equal split can have zero shares, which the ledger refuses. One cent for two is
  refused (`Agreement.OneCentForTwo`).
- A call that is cancelled between its journal and the store has posted and is never stored: its money stays
  in the wallets alone, and its key stays locked until the entry expires.
- A refused message goes back into a bounded queue. When the queue is full and every consumer is busy with a
  message that its next nack does not finish off, consumers that always nack block one another for good
  unless a message is finished; otherwise they drain the queue (`Delivery.AlwaysNackDrains`).
- The outbox promises delivery at least once (messaging/outbox.py:7). An event that has left the relay has
  been delivered exactly when no publish of it raised. The in-memory `publish` is a put that waits for room
  and raises only when it is cancelled, so the failing step is above all that of the Redis queue.
- `delete` counts, and `expire` revives, a key that is dead and not yet evicted.

## Model

| member | source | states |
|---|---|---|
| DebtMatching.Round | core/debt_simplifier.py:123-148 | a matching round settles at least one cent, takes the same amount from both sides, keeps residuals positive and closes one participant, or both when they are equal |
| NetBalances.ComputeNetBalances | core/debt_simplifier.py:175-204 | the nested loops compute the net-balance map of the expenses, over exactly the users mentioned in splits and their payers |
| NetBalances.NetIsPaidMinusOwed | core/debt_simplifier.py:52-56 | a net balance is everything the user paid for minus the user's own shares of everything |
| NetBalances.NetMapZeroSum | core/debt_simplifier.py:76 | net balances of any expenses sum to zero, so the zero-sum check never rejects them |
| DebtSimplifier.Simplify | core/debt_simplifier.py:82-173 | for every insertion order of the dictionary the result is the plan determined by the balances alone; a non-zero sum is rejected with its value; counts, ratio and checksum are as reported; pops and pushes are each twice the number of payments and at most 2n-2 |
| DebtSimplifier.MatchHeaps | core/debt_simplifier.py:123-148 | the loop over the two heaps emits the greedy matching and both heaps run empty together |
| DebtSimplifier.ChecksumIgnoresOrder | core/debt_simplifier.py:154-158 | the text that is hashed is the same for every order of the payments: the sort by payer and payee has no ties |
| Text.BeforeIsSooner | core/debt_simplifier.py:114-125 | the order of ids that decides ties and the checksum's sort: a proper prefix first, else the smaller character at the first difference |
| Text.IntTextIsNumeral | core/debt_simplifier.py:155 | an amount is written as its decimal numeral, without leading zeros and with a minus sign when negative |
| GreedyPlan.PlanIsGreedy | core/debt_simplifier.py:114-148 | there is no payment when nobody is owed or nobody owes; else the largest debtor pays the largest creditor the smaller of both amounts, ties going to the first id, and the rest is the plan of the balances after that payment |
| GreedyPlan.ChecksumIsWritten | core/debt_simplifier.py:154-158 | the hashed text is the payments written as payer:payee:amount in order of payer, then payee, with bars between |
| ExactSettlement.PlanSettlesExactly | core/debt_simplifier.py:114-148 | everyone's receipts minus payments equal their balance, creditors only receive, debtors only pay, no self-payment, every amount at least one cent |
| ExactSettlement.EmptyTogether | core/debt_simplifier.py:123 | while credits equal debts, one side is empty only when the other is |
| ExactSettlement.PlanLength | core/debt_simplifier.py:65-72 | n participants with a balance need n minus the number of exact rounds, at most n-1 payments |
| ExactSettlement.PlanShape | core/debt_simplifier.py:123-148 | payments come largest first and no payer pays the same payee twice |
| Optimality.PlanGivesGrouping | core/debt_simplifier.py:4-5 | any plan that settles all balances, even through other users, leaves at least n minus its length groups that net to zero |
| Optimality.GroupingGivesPlan | core/debt_simplifier.py:4-5 | any division into zero-sum groups is settled by a plan of at most n minus the number of groups payments |
| Optimality.MinimumPayments | core/debt_simplifier.py:72 | a number is a lower bound for all settling plans exactly when no division into zero-sum groups has more than n minus that number groups |
| Optimality.OptimalExactlyWhen | core/debt_simplifier.py:72 | the greedy plan is shortest exactly when no division into zero-sum groups has more groups than the matching has exact rounds |
| Optimality.OptimalWhenIrreducible | core/debt_simplifier.py:123-148 | if no proper part of the participants nets to zero, no plan is shorter |
| Optimality.TwoApproximation | core/debt_simplifier.py:103-148 | the plan has at most C+D-1 payments and fewer than twice those of any settling plan |
| Optimality.NotAlwaysOptimal | core/debt_simplifier.py:72 | credits 6 and 4 against debts 4, 3 and 3: four payments where three settle |
| Ledger.LedgerEngine.PostJournal | core/ledger_engine.py:112-182 | the whole new ledger state and result: small amounts change nothing, an imbalance moves only the heads, otherwise entries, heads and journal are added |
| Ledger.LedgerEngine.PostExpenseJournal | core/ledger_engine.py:184-220 | posts the debtor, clearing and closing lines of an expense, which `JournalLines.ExpenseLines` spells out |
| Ledger.LedgerEngine.PostSettlementJournal | core/ledger_engine.py:222-243 | posts the four lines of a settlement, which `JournalLines.SettlementLines` spells out |
| JournalLines.PostingDecided | core/ledger_engine.py:136-182 | how any posting ends and what it leaves: too small an amount, unequal sides with both sums, or one entry per spec that says what the spec says |
| JournalLines.SmallRefused | core/ledger_engine.py:136-140 | a posting with an amount below one cent is refused with the first such amount and changes nothing |
| JournalLines.ExpenseLines | core/ledger_engine.py:202-220 | an expense is posted exactly when every share but the payer's is at least a cent; per such share, in order, wallet debit and clearing credit, then clearing debit and payer credit with their sum, each with account, type, side, amount and text |
| JournalLines.ExpenseRefused | core/ledger_engine.py:136-140 | otherwise the first such share below a cent is reported and nothing changes |
| JournalLines.SettlementLines | core/ledger_engine.py:236-243 | a settlement is posted exactly when it is at least a cent: payer debited, clearing account in and out, payee credited, each line in full |
| JournalLines.ClearingsDiffer | core/ledger_engine.py:201-236 | different draws give different clearing accounts, and expenses never share one with settlements |
| Ledger.LedgerEngine.VerifyChainIntegrity | core/ledger_engine.py:245-277 | regrouping, sorting and walking find exactly the errors of the audit function, in order; `AuditErrors` says which these are |
| Ledger.LedgerEngine.GetAccountBalance | core/ledger_engine.py:279-289 | credits minus debits of the account |
| StableSort.SortStable | core/ledger_engine.py:255-257 | the audit's sort keeps entries of the same time in ledger order |
| LedgerRuns.AuditCleanIff | core/ledger_engine.py:245-277 | the audit reports nothing exactly when every account's time-ordered list is linked from the genesis value and every entry carries its own hash |
| LedgerRuns.WrappersNeverUnbalanced | core/ledger_engine.py:184-243 | the two wrappers never reach the imbalance error, in any state and for any arguments |
| LedgerRuns.PostKeepsSound | core/ledger_engine.py:136-182 | any posting not rejected for imbalance keeps heads, chains, time order and equal debits and credits |
| LedgerRuns.EveryRunPassesAudit | core/ledger_engine.py:146-182 | every ledger that runs of the wrappers reach passes the audit, has equal total debits and credits, and its heads are the last hashes |
| HashBinding.PayloadDecodes | core/ledger_engine.py:102-110 | the joined payload determines all seven fields, even if the account id contains the separator |
| HashBinding.LastHashesBindLedger | core/ledger_engine.py:245-277 | two clean ledgers with the same last hash on every account agree on every account in every hashed field, in order |
| HashBinding.LastHashBindsBalance | core/ledger_engine.py:279-289 | two clean ledgers with the same last hash on one account give it the same balance, whatever ids, users and other accounts look like |
| AlteredEntry.PayloadChangeReported | core/ledger_engine.py:258-277 | whatever is written into one entry of a clean ledger, its recorded hash kept: if its payload is another one, the audit reports it |
| AlteredEntry.OneFieldChangeReported | core/ledger_engine.py:102-110 | a change of any one hashed field of one entry, to anything, is reported |
| AlteredEntry.ReportedIff | core/ledger_engine.py:251-277 | any alteration of one entry is reported unless payload and predecessor stay and, if the account changes, the entry was the last of its account and becomes the last of the other |
| AlteredEntry.ReportedIffWithUuids | core/ledger_engine.py:102-110 | with UUIDs for entry and journal, an alteration is reported exactly when a hashed field changed |
| AlteredEntry.ShiftUnnoticed | core/ledger_engine.py:102-110 | an entry on an account with a vertical bar in its id, with the part before the bar shifted into the journal id, passes the audit as well |
| AlteredEntry.DeletionReportedIff | core/ledger_engine.py:251-277 | deleting one entry of a clean ledger is reported exactly when the entry is not the last of its account |
| AuditErrors.MismatchReportedIff | core/ledger_engine.py:267-274 | a hash mismatch is reported for an id exactly when some entry with it does not carry the hash of its fields |
| AuditErrors.BrokenReportedIff | core/ledger_engine.py:258-266 | a broken chain is reported, with both hashes, exactly when an entry of the account's time-ordered list names another predecessor hash than the recorded one before it, or at first than 64 zeros |
| AuditErrors.AlterationIsOneMismatch | core/ledger_engine.py:251-277 | rewriting one entry of a clean ledger, its account, time and hashes kept, gives exactly one error, the mismatch at that entry |
| AuditErrors.AmountAltered | core/ledger_engine.py:267-275 | an altered amount is such a rewriting |
| AuditErrors.PayloadIs | core/ledger_engine.py:102-110 | the hashed text, field by field |
| RejectedPosting.PostSoundIff | core/ledger_engine.py:170-178 | a call of `post_journal` keeps the invariant exactly when an amount is too small or debits equal credits |
| RejectedPosting.RejectionMovesHead | core/ledger_engine.py:146-182 | a rejected unbalanced journal leaves, on every account it touches, a head that is not the account's last hash |
| RejectedPosting.RejectionsSpoilAuditIff | core/ledger_engine.py:170-182 | after any run of `post_journal` the audit fails exactly when an accepted journal came somewhere after a rejected unbalanced one with which it shares an account |
| Occ.OCCVersionedEntity.CompareAndSwap | core/occ.py:125-144 | replaces the value and adds one to the version when versions match, and changes nothing otherwise |
| Occ.OCCBalanceStore.GetOrCreate | core/occ.py:156-160 | keeps an existing account and creates a missing one at version 0, leaving all others |
| Occ.OCCBalanceStore.ApplyDelta | core/occ.py:162-175 | uninterrupted, adds the delta exactly when the given version is the current one, and touches no other account |
| Occ.OccRetry | core/occ.py:84-104 | the first call that is not a conflict decides, within max_retries + 1 calls; all conflicts end in the retry error; a negative limit makes no call |
| OccInterleaving.NoLostUpdate | core/occ.py:121-144 | in every interleaving the value is the initial value plus the deltas of exactly the committed writers, and the version counts them |
| OccInterleaving.ApplyDeltaSafeIff | core/occ.py:162-175 | where its read suspends, `apply_delta` loses no update among any writers with any deltas exactly when its expected version had been reached at the call |
| OccInterleaving.UninterruptedDeltaIsSafe | core/occ.py:172-175 | with nobody between read and swap, as in memory, it loses no update whatever version it is given, among any writers in any interleaving |
| OccInterleaving.FailuresAreOthersCommits | core/occ.py:85-103 | a writer's failed attempts never exceed the commits of others since its first read |
| OccInterleaving.NoGiveUpIff | core/occ.py:85-103 | no schedule of W writers ends in giving up exactly when max_retries is at least W-1 |
| Splits.SplitEqual | services/expense_service.py:31-40 | returns the equal shares, or the division error for nobody |
| Splits.EqualIsTheEvenSplit | services/expense_service.py:31-40 | the equal shares sum to the total, never rise and differ by at most one cent; no other shares do all that |
| Splits.SplitExact | services/expense_service.py:43-51 | returns the given splits exactly when they sum to the total |
| Splits.SplitPercentage | services/expense_service.py:54-68 | rejects sums more than 0.01 away from 100; otherwise truncates all but the last share |
| Splits.PercentageSplitsSum | services/expense_service.py:54-68 | percentage shares always sum to the total |
| Splits.PercentageRounding | services/expense_service.py:60-68 | every share but the last is less than a cent below its exact part; the last is within total/10000 of its part, plus at most a cent for each other share |
| ExpenseService.SharesAddUp | services/expense_service.py:117-129 | whatever the split type, accepted shares sum to the expense total |
| ExpenseCalls.CallAcceptedIff | services/expense_service.py:100-136 | a call is accepted exactly when total, group and payer are in order and there are shares as the split type asks for (even among the members in order, as submitted, or cut from the percentages with the rest to the last) of which nobody's but the payer's is below a cent |
| ExpenseCalls.SharesAreUnique | services/expense_service.py:31-68 | there is at most one list of shares as a request asks for |
| ExpenseCalls.WhyRefused | services/expense_service.py:100-129 | which of the service's errors a call gets, each exactly when |
| ExpenseCalls.CallLeaves | services/expense_service.py:117-170 | an accepted call moves the wallets by these shares and announces them; a new key stores and returns an expense with every field from the request, a stored one returns the stored expense with the new journal |
| ExpenseCalls.LastShareIsNear | services/expense_service.py:60-68 | with percentages that are not negative, the last share is within total/10000 of its part, plus at most a cent for each other share |
| Store.InMemoryStore.CreateExpense | database/store.py:112-144 | a known key returns the first expense and changes nothing; otherwise the expense and its key are added |
| Store.KnownKeyGivesFirst | database/store.py:123-128 | a call with a key under which an expense is stored gives that expense back and changes nothing |
| Store.OtherwiseStored | database/store.py:130-144 | any other call stores a posted expense with exactly what it was given, at the end unless its id is known, and files its key, if it has one |
| Store.GroupInOrder | database/store.py:146-147 | a group's expenses are those with its id, in store order |
| Store.InMemoryStore.AddMember | database/store.py:101-109 | adds a new member once and raises the version; false for an unknown group |
| Store.InMemoryStore.SaveSettlements | database/store.py:150-153 | stores every record under its id |
| Store.MemberAddedIsTidy | database/store.py:101-109 | adding succeeds exactly for a known group, which then has the old members first and that one, once each; everything else stays |
| Store.SavedAreFound | database/store.py:150-153 | records with different ids are all found under them, and every other id keeps its record |
| ExpenseService.ExpenseService.Create | services/expense_service.py:75-170 | the whole new state of ledger, store and outbox, and the result, for every request |
| ExpenseService.ExpenseService.GetGroupNetBalances | services/expense_service.py:172-186 | the net-balance map of the group's stored expenses |
| Wallets.ExpenseOnWallet | core/ledger_engine.py:184-220 | an accepted expense journal changes every wallet by exactly what the expense does to that user's net balance |
| Wallets.ExpenseClears | core/ledger_engine.py:191-200 | it leaves every account that is not a wallet at the balance it had |
| Agreement.RaisingChangesNothing | services/expense_service.py:100-136 | a call that raises leaves ledger, store and outbox as they were, in any state |
| Agreement.AcceptedCallAgreesIff | services/expense_service.py:132-148 | after an accepted call ledger and store agree, journal ids included, exactly when the key was not stored or neither the call nor the stored expense moves anybody's balance |
| Agreement.EveryRunAgrees | services/expense_service.py:100-170 | over runs in which no call comes with a stored key, each wallet is the sum over groups of the user's net balance, each expense names a journal with its effect, and other accounts are zero |
| Agreement.UnusedKeyIsProper | services/expense_service.py:100-170 | a run that uses no key twice is such a run; one may also try a failed call again with its key |
| Agreement.RepeatedKeyDisagrees | services/expense_service.py:132-148 | a call repeated with its key, past the gate: both are accepted, and then ledger and store disagree |
| Agreement.CreateAcceptedIff | services/expense_service.py:100-136 | for every split type, a call is accepted exactly when it is valid and every share of somebody other than the payer is at least a cent |
| Agreement.EqualExpenseAcceptedIff | services/expense_service.py:118-136 | an equal expense of a member is accepted exactly when it is at least one cent and every member beyond the first `total` is the payer |
| Agreement.OneCentForTwo | services/expense_service.py:31-40 | one cent shared equally by two members is refused |
| Reachable.EveryWorldPassesAudit | services/expense_service.py:132-136 | after any interleaving of calls under a clock that does not run backwards, the ledger passes the audit, is balanced and has true heads |
| Reachable.StoredAreAccepted | services/expense_service.py:132-148 | after any interleaving of calls, every expense stored or in flight has only shares the ledger accepts |
| Reachable.EveryWorldIsTidy | database/store.py:101-109 | after any interleaving of calls, no group lists a member twice and its version counts its members |
| ConcurrentExpenses.HalvesMakeCall | services/expense_service.py:131-170 | the two steps of a call, run without interruption, are the sequential call |
| ConcurrentExpenses.SequentialIsInterleaved | services/expense_service.py:131-170 | every sequential run of calls, accepted or refused, is an interleaving that leaves nothing in flight |
| ConcurrentExpenses.EveryInterleavingAgrees | services/expense_service.py:131-170 | with calls interleaved between journal and store, wallets less the calls in flight are the store's balances, and ledger and store agree when none is in flight |
| Worker.SettlementWorker.HandleSettlement | worker/worker.py:95-176 | posts the plan of the group's expenses; saves its payments one by one, executed, with group and checksum, so that each user's records come to their net balance, debtors pay and creditors receive; announces count, total of positive balances, reduction and checksum; drops the two cached entries; the zero-sum and amount errors cannot occur |
| PlanPosting.SavingSettles | worker/worker.py:141-155 | the saved records are the payments of the plan, and in them receipts minus payments of every user equal the net balance of the expenses |
| PlanPosting.PlanLines | worker/worker.py:134-140 | each payment of a plan puts its four lines into the ledger, in the order of the plan |
| PlanPosting.PlanJournals | worker/worker.py:134-140 | each payment's journal is found under its id, with its four lines and its text, unless a later payment draws the same id |
| PlanPosting.PlanMovesCredits | worker/worker.py:132-170 | the total settled is the sum of all positive balances |
| PlanPosting.ReductionIs | core/debt_simplifier.py:160-163 | the ratio times the expenses is the number of payments saved; it is zero when none are, negative when there are more |
| Worker.PlanOnWallets | worker/worker.py:134-153 | the settlement journals of a plan change each wallet by receipts minus payments |
| Worker.SettlementsMeanExpenses | worker/worker.py:121-153 | from empty ledgers, the settlement journals give every user the wallet balance that all the expense journals give |
| Worker.GroupSettlementMeansExpenses | worker/worker.py:113-153 | that holds for every group that any interleaving of calls can produce, with no condition on its expenses |
| Worker.SettlingAllGroups | worker/worker.py:95-153 | in every interleaving of calls, each wallet of the service's ledger, less the calls in flight, is the sum of what the settlements of all groups give that user |
| Cache.InMemoryCache.Set | cache/redis_client.py:46-58 | the whole new state and result, with NX, TTL and removal of an old deadline |
| Cache.InMemoryCache.Keys | cache/redis_client.py:88-96 | lists each live matching key exactly once |
| Cache.StepRefines | cache/redis_client.py:33-71 | each operation answers as an eager cache does and keeps deadlines on stored keys only |
| Cache.LazyRefinesEager | cache/redis_client.py:29-71 | over every run under a clock that does not run backwards, lazy eviction is invisible in answers and in live entries |
| Cache.ExpireRefinesIff | cache/redis_client.py:73-78 | `expire` acts as on an eager cache exactly when the key is not dead and stored, or the new deadline has passed too |
| Cache.DeleteCountIff | cache/redis_client.py:60-65 | `delete` returns the count of an eager cache exactly when the key is not dead and stored |
| IdempotencyGate.IdempotencyManager.CheckAndLock | cache/idempotency.py:51-81 | acquires a free or expired key for 86400 seconds, otherwise reports the duplicate with the stored response if there is one |
| IdempotencyGate.IdempotencyManager.StoreResponse | cache/idempotency.py:83-88 | replaces the entry by the response for 86400 seconds |
| IdempotencyGate.IdempotencyManager.Release | cache/idempotency.py:90-94 | removes the entry |
| IdempotencyGate.NextKeepsGuarded | api/routes/expenses.py:69-109 | every step of every request, cancellation included, keeps the invariant of a key, unless a request with the key comes to the gate and finds its entry expired |
| IdempotencyGate.AtMostOnce | api/routes/expenses.py:69-109 | in every interleaving in which no request with the key finds its entry expired, one request at most is in flight, one journal and one expense at most are made, and all responses are that expense's |
| IdempotencyGate.LaterRequestsReplay | api/routes/expenses.py:72-80 | once a response is stored, every later request with the key ends in exactly that response |
| IdempotencyGate.FailureFreesKey | api/routes/expenses.py:99-103 | a failed request leaves the key free for the next |
| IdempotencyGate.LockFreeIff | cache/idempotency.py:61-66 | a request gets the lock exactly when its key has no entry or the entry is past its deadline |
| IdempotencyGate.LockLastsADay | cache/idempotency.py:25-66 | a lock that is neither released nor answered keeps every other request with the key out, with a conflict, up to 86400 seconds after it, whatever is done meanwhile; the first request later than that gets the lock |
| IdempotencyGate.ResponseLastsADay | cache/idempotency.py:25-88 | up to 86400 seconds after a response is stored, every request with the key that starts then is refused the lock and replayed that response; the first later lock is granted |
| GatedExpenses.GatedRequestsAgree | api/routes/expenses.py:69-109 | in every interleaving of requests with any keys or none, in which no request finds the entry of its own key expired, wallets less the calls in flight are the store's balances, ledger and store agree when none is in flight, and each stored expense or call in flight has one journal |
| GatedExpenses.OneExpensePerKey | api/routes/expenses.py:69-109 | if no request with a key finds its entry expired, at most one expense is stored or in flight with it, and every response given is that of the one stored expense, whatever requests with other keys do |
| GatedExpenses.ExpiredKeyPostsAgain | api/routes/expenses.py:69-109 | a request that finds the entry of an executed key expired gets the lock, and if its call is accepted there is a second journal for the key and still one expense |
| Messaging.InMemoryQueue.Nack | messaging/queue.py:54-62 | counts the nack and sends the message back, or to the dead letters from the third on |
| Messaging.InMemoryOutbox.RelayAllPending | messaging/outbox.py:52-67 | publishes all pending events in order, each as a message with its type and payload, marks exactly those published and returns their number |
| Delivery.EveryEventInOnePlace | messaging/outbox.py:32-67 | in every run each appended event is in exactly one of pending, relaying, queued, held, returning, done, dead-lettered or lost, once |
| Delivery.DeliveredIffNoPublishRaised | messaging/outbox.py:55-66 | an event that is neither pending nor being relayed is with queue, consumers or dead letters, and marked published, exactly when no publish of it raised |
| Delivery.DeadLetterOnThirdNack | messaging/queue.py:54-62 | a message is a dead letter exactly when it was nacked three times, and then once |
| Delivery.FirstInFirstOut | messaging/outbox.py:56-66 | without nacks and with one relay at a time, messages are consumed in the order of their events, less the events whose publish failed |
| Delivery.BudgetIsConserved | messaging/queue.py:44-62 | in every interleaving without finished messages, steps of consumers and retry budget left add up to the budget at the start and eight for each publish |
| Delivery.AlwaysNackDrains | messaging/queue.py:44-62 | any number of consumers that always nack, in every interleaving: they take at most the retry budget of steps, have drained the queue exactly when it is spent, with every message not done with a dead letter, once; a schedule that cannot go on has drained the queue exactly when it did not start with a full queue, every consumer busy and no message on its last nack |
| Delivery.DoomIsReachable | messaging/queue.py:29-62 | for every number of consumers a run leads to such a start |
| Delivery.OneConsumerDrains | messaging/queue.py:44-62 | one consumer alone empties a queue in exactly as many refusals as there are nacks left |

## Left out

- FastAPI apps, schemas, formatting, user records, logging, scripts and the worker's counters: plumbing.
- Redis, Redis streams, PostgreSQL, SHA-256, JSON and asyncio: libraries. An await is a step boundary, a response body is opaque, and the hash is any function, without collisions where a theorem says so.
- `heapq` and the list sort: by contract only, as an unordered list whose pop takes the least tuple and as an insertion sort proved stable.
- Floating point: percentages are reals and timestamps are integers; rounding of floats is not modelled.
- Backoff times, execution time and the complexity text: no property beyond arithmetic.
- Expense and group records are values in the store's fields: aliasing of a returned record with the stored one is modelled by writing the record back.
- `ttl`, `get_cached_response`, `mark_settlement_executed` and audit totals as a dictionary: easy members.
- Messaging.InMemoryQueue.Publish: states the put when there is room; waiting for room is a guard of the steps in `Delivery`.
- Messaging.InMemoryOutbox.RelayAllPending: states a relay whose publishes all succeed and find room; failing publishes and several relays are in `Delivery`.
- Cache.InMemoryCache.Keys: does not state the order of the list, which is that of two dictionaries.
- IdempotencyGate.AtMostOnce: its journals and expenses are counters; `GatedExpenses` ties them to ledger and store, and shows the second journal after expiry.
- Agreement.EveryRunAgrees: takes a call as one step; `ConcurrentExpenses` and `GatedExpenses` have the interleavings.
