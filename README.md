# Ledger balance engine, modelled in Dafny

This project models the bookkeeping core of a personal-finance backend (a
Laravel application). Users keep **accounts** (assets and liabilities),
**contacts** they lend to or borrow from, **categories** of income and
expense, **budgets** and **transactions**. Every transaction row has one of
seven types: income, expense, transfer, lent, borrowed, repayment_in and
repayment_out. The transaction service turns each type into signed changes
of account and contact balances. It applies them on create, reverses the
stored row on delete, and reverses the old row and applies the new one on
update. Each of these runs in one database transaction, so it either has
all of its effects or none.

Around the engine sit the smaller rules, all modelled here:

- the row models' predicates and query scopes;
- the per-user totals: net worth, budget consumption, debt summary;
- validation of a create request;
- the listing, delete-guard and summary logic of the account, contact and
  category endpoints.

Modelling choices:

- **Money** is integer cents. Every money column is `decimal(15,2)`, so cents
  are exact.
- **Tables** are sequences of rows, and a row's id is its position.
  Deletes are soft, so a delete only sets a `deleted` flag and ids stay
  stable.
- **Owner scope.** The acting user (`owner`) is a parameter. So is the
  clock (`Moment`, `Clock`). Every owner-scoped query keeps only rows of
  that owner that are not deleted.
- **The store** is the class `Store.Database`. Its methods change the
  tables in place. `UpdateAccountBalance` and `UpdateContactBalance` are
  `updateBalance`, applied to the stored row: its balance grows by the
  given amount. The source adds to the copy that `find` loaded and saves
  that copy. The two agree except when a branch loads the same account
  twice, which only a transfer from an account to itself does. The write
  path gives such a transfer its intended effect (none). The source's
  own effect is modelled beside it, as the two `...AsWritten` members of
  `BalanceEngine` (see "## Findings").
- **Reconciliation invariant.** `Valid()` says that every account and
  contact balance equals its opening balance plus the sum of the effects
  of the live transaction rows on it. Create, update, delete and the
  controllers' deletes all preserve it.

Modules:

- `Common`: ids, options, dates, and generic folds (sum, count, where,
  filter, sort).
- `Transactions`, `Accounts`, `Contacts`, `Categories`, `Budgets`,
  `Users`: the models.
- `BalanceEngine`: the effect table, applying and reversing one row, and
  the ledger.
- `Store`: the tables and the reconciliation lemmas.
- `TransactionService`: create, update and delete as methods on the
  store.
- `Reports`: statistics and spending by category.
- `StoreRequest`: validation of a create request.
- `AccountController`, `ContactController`, `CategoryController`: the
  endpoints' listing, delete-guard and summary logic.

## Model

| member | source | states |
|---|---|---|
| Transactions.ParseType | database/migrations/2025_12_30_185642_create_transactions_table.php:14-22 | only the seven enum values are read; a parsed value names back to the same string, and every other string is refused |
| Transactions.ParseTypeName | database/migrations/2025_12_30_185642_create_transactions_table.php:14-22 | reading the stored name of a type gives that type back |
| Transactions.TypePredicatesPartition | app/Models/Transaction.php:106-124 | every row satisfies exactly one of isIncome, isExpense, isTransfer, isDebtRelated |
| Transactions.ScopeOfType | app/Models/Transaction.php:64-67 | keeps exactly the user's rows whose type is the named type; an unknown name keeps nothing |
| Transactions.ScopeDateRange | app/Models/Transaction.php:84-87 | keeps exactly the user's rows with start <= date <= end, both ends included |
| Transactions.ScopeThisMonth | app/Models/Transaction.php:89-93 | keeps exactly the user's rows in the current month of the current year |
| Transactions.ScopeThisYear | app/Models/Transaction.php:95-98 | keeps exactly the user's rows in the current year |
| Transactions.ThisMonthWithinThisYear | app/Models/Transaction.php:89-98 | every row of this month is a row of this year |
| Transactions.ScopeRecent | app/Models/Transaction.php:100-103 | keeps rows dated after the cut-off day, never rows before it, and rows on the cut-off day only when the cut-off is at midnight |
| Accounts.FindAccount | app/Services/TransactionService.php:69 | `find` returns the referenced id exactly when it names a live account of the user, else null |
| Accounts.CreditAccount | app/Models/Account.php:78-82 | updateBalance(x): that account's balance grows by x, no other field and no other account changes |
| Accounts.AvailableCredit | app/Models/Account.php:84-91 | 0 without a credit limit; with one, available + abs(balance) = limit |
| Accounts.IsOverLimit | app/Models/Account.php:93-100 | false without a limit; otherwise true exactly when available credit is negative |
| Accounts.ScopeActive | app/Models/Account.php:57-60 | keeps exactly the user's active accounts (also what `User::activeAccounts`, app/Models/User.php:85-88, returns) |
| Accounts.ScopeAsset | app/Models/Account.php:62-65 | keeps exactly the user's asset accounts |
| Accounts.ScopeLiability | app/Models/Account.php:67-70 | keeps exactly the user's liability accounts |
| Accounts.ScopeOfSubtype | app/Models/Account.php:72-75 | keeps exactly the user's accounts whose subtype has the given name |
| Accounts.AssetLiabilityPartition | app/Models/Account.php:62-70 | the asset and liability scopes are disjoint and together cover every account of the user |
| Accounts.TransactionsOf | app/Models/Account.php:46-49 | transactions(): exactly the user's live rows whose source account is this one |
| Accounts.TransfersIn | app/Models/Account.php:51-54 | transfersIn(): exactly the user's live rows whose destination is this one |
| Accounts.IncomingTransferNotInTransactions | app/Models/Account.php:46-54 | a transfer into the account from another account is in transfersIn() and not in transactions() |
| Contacts.FindContact | app/Services/TransactionService.php:91 | `find` returns the referenced id exactly when it names a live contact of the user |
| Contacts.CreditContact | app/Models/Contact.php:65-69 | updateBalance(x): that contact's balance grows by x, nothing else changes |
| Contacts.ExactlyOneStatus | app/Models/Contact.php:71-84 | exactly one of owesYou, youOwe, isSettled holds for any balance |
| Contacts.BalanceStatus | app/Models/Contact.php:86-94 | "owes_you" iff balance > 0, "you_owe" iff balance < 0, "settled" iff balance = 0 |
| Contacts.ScopeOwesYou | app/Models/Contact.php:49-52 | keeps exactly the user's contacts with a positive balance |
| Contacts.ScopeYouOwe | app/Models/Contact.php:54-57 | keeps exactly the user's contacts with a negative balance |
| Contacts.ScopeSettled | app/Models/Contact.php:59-62 | keeps exactly the user's contacts with a zero balance |
| Contacts.ScopeActive | app/Models/Contact.php:44-47 | keeps exactly the user's active contacts |
| Contacts.BalanceScopesPartition | app/Models/Contact.php:49-94 | each balance scope holds a contact exactly when getBalanceStatus names that scope, so the three scopes partition the user's contacts |
| Categories.ChildIds | app/Models/Category.php:45-48 | children(): exactly the user's live categories whose parent is this one, each once |
| Categories.HasChildren | app/Models/Category.php:92-95 | true exactly when some live category of the user has this one as parent |
| Categories.ScopeParentOnly | app/Models/Category.php:76-79 | keeps exactly the user's categories without a parent (the `isParent` test of lines 87-90) |
| Categories.ScopeIncome | app/Models/Category.php:66-69 | keeps exactly the user's live income categories |
| Categories.ScopeExpense | app/Models/Category.php:71-74 | keeps exactly the user's live expense categories |
| Categories.TransactionsOf | app/Models/Category.php:50-53 | transactions(): exactly the user's live rows that name the category |
| Categories.Ordered | app/Models/Category.php:81-84 | a permutation of the given ids in non-decreasing `order` |
| BalanceEngine.EffectTable | app/Services/TransactionService.php:66-117 | income, borrowed, repayment_in add the amount to the account; expense, transfer, lent, repayment_out subtract it; debt types move the contact by the opposite amount, other types leave contacts alone |
| BalanceEngine.ApplyToAccounts | app/Services/TransactionService.php:66-117 | each account moves by exactly its delta (source effect, plus the amount at a transfer's destination) and nothing else about any account changes |
| BalanceEngine.ApplyToContacts | app/Services/TransactionService.php:89-115 | only the debt row's contact moves, by the contact effect |
| BalanceEngine.ApplyKeepsResolves | app/Services/TransactionService.php:32-47 | applying or reversing a row changes no owner or deleted flag, so any row that resolved still resolves |
| BalanceEngine.ReverseUndoesApply | app/Services/TransactionService.php:66-166 | for every type, reverseBalances after updateBalances restores every account and contact |
| BalanceEngine.OnlyReferencedChange | app/Services/TransactionService.php:66-117 | every account other than the row's source and transfer destination, and every contact other than a debt row's contact, is untouched |
| BalanceEngine.UpdateNetEffect | app/Services/TransactionService.php:32-47 | after reverse-old then apply-new each balance is old balance - old row's delta + new row's delta |
| BalanceEngine.TransferConservesTotal | app/Services/TransactionService.php:82-87 | a transfer leaves the sum of all account balances unchanged, self-transfers included |
| BalanceEngine.PositionChange | app/Services/TransactionService.php:66-117 | accounts plus contacts move together only by the income or expense amount; transfers and debt types conserve it |
| BalanceEngine.LedgerAppend | app/Services/TransactionService.php:16-27 | persisting a live row adds exactly its delta to each account's and contact's ledger |
| BalanceEngine.LedgerReplace | app/Services/TransactionService.php:32-61 | replacing a live row changes each ledger by the new row's delta minus the old one's |
| BalanceEngine.UpdateIsDeletePlusCreate | app/Services/TransactionService.php:32-61 | the ledger after an update equals the ledger after deleting the old row and creating the new one |
| BalanceEngine.TransferAsWritten | app/Services/TransactionService.php:82-87 | the transfer branch as written, both rows loaded before either save: the destination always ends at its loaded balance + amount |
| BalanceEngine.TransferAsWrittenAgrees | app/Services/TransactionService.php:82-87 | for distinct source and destination, the as-written branch equals the engine's transfer |
| BalanceEngine.SelfTransferAsWrittenInflates | app/Services/TransactionService.php:82-87 | for a self-transfer, the as-written branch raises the account, and the total of all accounts, by the amount |
| BalanceEngine.ReverseTransferAsWritten | app/Services/TransactionService.php:136-140 | the reverse transfer branch as written, both rows loaded before either save: the destination always ends at its loaded balance - amount |
| BalanceEngine.ReverseTransferAsWrittenAgrees | app/Services/TransactionService.php:136-140 | for distinct source and destination, the as-written reverse branch equals the engine's reverse |
| BalanceEngine.SelfTransferReverseAsWrittenDeflates | app/Services/TransactionService.php:136-140 | reversing a stored self-transfer as written lowers the account, and the total of all accounts, by the amount |
| BalanceEngine.SelfTransferAsWrittenRoundTrip | app/Services/TransactionService.php:82-140 | reversing, as written, a self-transfer applied as written gives back the table it was applied to |
| Store.CreateKeepsReconciled | app/Services/TransactionService.php:16-27 | persist-then-apply keeps every balance equal to opening balance plus ledger |
| Store.DeleteKeepsReconciled | app/Services/TransactionService.php:52-61 | reverse-then-soft-delete keeps the books reconciled |
| Store.UpdateKeepsReconciled | app/Services/TransactionService.php:32-47 | reverse-old, persist, apply-new keeps the books reconciled |
| Store.Database.UpdateAccountBalance | app/Models/Account.php:78-82 | the stored account's balance grows by x; the accounts table becomes CreditAccount of the old one |
| Store.Database.UpdateContactBalance | app/Models/Contact.php:65-69 | the stored contact's balance grows by x; the contacts table becomes CreditContact of the old one |
| Store.Database.AddAccount | app/Http/Controllers/Api/AccountController.php:47-55 | appends the row under the next id and keeps the books reconciled |
| Store.Database.AddContact | app/Http/Controllers/Api/ContactController.php:57-65 | appends the row under the next id and keeps the books reconciled |
| Store.Database.AddCategory | app/Http/Controllers/Api/CategoryController.php:47-55 | appends the row under the next id |
| TransactionService.Patched | app/Services/TransactionService.php:39 | update($data) never changes the owner or the deleted flag, and an empty patch changes nothing |
| TransactionService.UpdateBalances | app/Services/TransactionService.php:66-117 | succeeds exactly when every `find` of the type returns a row; then the tables are the row applied |
| TransactionService.ReverseBalances | app/Services/TransactionService.php:122-166 | succeeds exactly when every `find` returns a row; then the tables are the row reversed |
| TransactionService.NewRow | app/Traits/BelongsToUser.php:16-20 | the created row belongs to the acting user and is live |
| TransactionService.CreateTransaction | app/Services/TransactionService.php:16-27 | a resolving row is appended and applied; otherwise every table is unchanged; the books stay reconciled |
| TransactionService.DeleteTransaction | app/Services/TransactionService.php:52-61 | not the user's live row: 404, nothing changes; unresolved: rolled back; otherwise reversed and soft-deleted |
| TransactionService.UpdateTransaction | app/Services/TransactionService.php:32-47 | stored row reversed, patched row persisted and applied, or everything rolled back when either row does not resolve |
| TransactionService.CreateThenDelete | app/Services/TransactionService.php:16-61 | creating a row and deleting it leaves every account and contact balance where it was |
| Reports.GetStatistics | app/Services/TransactionService.php:171-202 | net_savings = total_income - total_expense, and the period is echoed back |
| Reports.StatisticsAppend | app/Services/TransactionService.php:191-193 | each total sums only rows of its own type: a new row moves only its own type's total, by its amount, when it is the user's and in the period |
| Reports.StatisticsPartition | app/Services/TransactionService.php:176-193 | income + expense + transfers + debt rows = all of the user's rows in the period |
| Reports.CategoryKeys | app/Services/TransactionService.php:223 | the groupBy keys: each row's category id appears once, and only ids that occur |
| Reports.SpendingRows | app/Services/TransactionService.php:209-220 | exactly the user's expense rows of the period, where only "month" and "year" filter by date |
| Reports.GetSpendingByCategory | app/Services/TransactionService.php:207-234 | one non-empty group per category id among the period's expenses, each with that id's label, total and count, sorted by total, largest first |
| Reports.GroupCountsSum | app/Services/TransactionService.php:223-228 | over distinct keys the groups' counts add up to the number of rows with those keys |
| Reports.GroupTotalsSum | app/Services/TransactionService.php:223-227 | over distinct keys the groups' totals add up to those rows' amounts |
| Reports.SpendingCountsEveryRow | app/Services/TransactionService.php:209-233 | the report's counts add up to the number of expense rows of the period: every row lands in exactly one group |
| Reports.SpendingTotalsEveryRow | app/Services/TransactionService.php:209-233 | the report's totals add up to the amount spent over the period |
| Budgets.SpentAmount | app/Models/Budget.php:63-93 | with non-negative amounts, what is spent on the budget's own category alone lies between 0 and the result; without subcategories the result is exactly that own-category amount |
| Budgets.SpentCoversOwnCategory | app/Models/Budget.php:74-86 | widening the category list beyond the budget's own id never lowers the spent amount when amounts are non-negative |
| Budgets.CategoryIds | app/Models/Budget.php:73-90 | the budget's own category first; without subcategories only it; with them, exactly its live direct children besides (one level) |
| Budgets.SpentWithoutSubcategories | app/Models/Budget.php:87-90 | without subcategories the spent amount sums only the user's expense rows in the window whose category is exactly the budget's |
| Budgets.SpentOnDistinct | app/Models/Budget.php:78-86 | over distinct category ids, spending on the set is the sum of the spending on each id |
| Budgets.SpentWithSubcategories | app/Models/Budget.php:74-86 | with subcategories, spent = spent on the parent + the sum of spent on each child |
| Budgets.RemainingAmount | app/Models/Budget.php:95-98 | remaining + spent = amount |
| Budgets.IsOverBudget | app/Models/Budget.php:109-112 | over budget exactly when the remaining amount is negative |
| Budgets.PercentageUsed | app/Models/Budget.php:100-107 | 0 for a zero amount; otherwise a fraction whose denominator is the amount's magnitude and whose value times the amount is spent * 100 |
| Budgets.OverHundredPercentIffOverBudget | app/Models/Budget.php:100-112 | for a positive amount, more than 100 percent used exactly when over budget |
| Budgets.ScopeCurrent | app/Models/Budget.php:52-60 | keeps exactly the user's live (not soft-deleted) budgets with start <= today and no end or end >= today |
| Budgets.CurrentWindowContainsToday | app/Models/Budget.php:52-71 | a current budget's spending window contains today |
| Users.Weight | app/Models/User.php:90-106 | +1 exactly for counted assets, -1 exactly for counted liabilities, 0 for accounts left out of the totals |
| Users.TotalAssets | app/Models/User.php:90-97 | the sum over all accounts of the balances of the user's active asset accounts included in totals, every other account contributing 0 |
| Users.TotalLiabilities | app/Models/User.php:99-106 | the same sum over the user's active liability accounts included in totals |
| Users.NetWorth | app/Models/User.php:108-111 | total assets - total liabilities, which equals the sum over all accounts of each balance times its weight |
| Users.TotalsAreWeightedSum | app/Models/User.php:90-111 | counted assets minus counted liabilities = the sum over all accounts of each balance times its weight |
| Users.CreditChangesNetWorth | app/Models/User.php:90-111 | crediting x to an account moves total assets by x only for a counted asset and total liabilities by x only for a counted liability, so an inactive or excluded account moves neither |
| Users.ApplyChangesNetWorth | app/Models/User.php:108-111 | applying or reversing a row moves net worth by the weighted effects on its source and destination |
| Users.TransferBetweenLikeAccountsKeepsNetWorth | app/Models/User.php:108-111 | a transfer between two accounts of equal weight leaves net worth unchanged |
| Users.TransferAssetToLiabilityNetWorth | app/Models/User.php:108-111 | a transfer from a counted asset into a counted liability lowers net worth by twice the amount |
| StoreRequest.RuleErrors | app/Http/Requests/Transaction/StoreTransactionRequest.php:15-30 | at most one error per ruled field, and each field has one exactly when its rule fails: unknown or missing type, amount below 1 cent, missing or unknown account, a destination that is unknown or equals the account, an unknown category or contact, a missing date |
| StoreRequest.HookErrors | app/Http/Requests/Transaction/StoreTransactionRequest.php:49-66 | at most one error; to_account_id exactly for a transfer without destination, contact_id exactly for a debt type without contact, category_id exactly for income or expense without category |
| StoreRequest.Errors | app/Http/Requests/Transaction/StoreTransactionRequest.php:15-66 | every rule error is reported, and the list is empty exactly when the request is well formed |
| StoreRequest.RulesPassIff | app/Http/Requests/Transaction/StoreTransactionRequest.php:15-30 | no rule error exactly when every rule's condition holds |
| StoreRequest.HookPassesIff | app/Http/Requests/Transaction/StoreTransactionRequest.php:49-66 | for a known type, no hook error exactly when the type's own required reference is present |
| StoreRequest.RulesAndHookPassIffWellFormed | app/Http/Requests/Transaction/StoreTransactionRequest.php:15-66 | no field has an error exactly when the type is known, amount >= 1 cent, the account exists, a present destination exists and differs from it, a date is given, and the type's own reference is present |
| StoreRequest.ToRow | app/Http/Requests/Transaction/StoreTransactionRequest.php:15-30 | the row created from the validated fields carries exactly those fields and the acting user |
| StoreRequest.AcceptedRowResolves | app/Http/Requests/Transaction/StoreTransactionRequest.php:51-66 | an accepted request gives every type the references the engine dereferences, and a transfer between two different accounts; the row resolves when those are the user's live rows |
| StoreRequest.AcceptedButForeignAccount | app/Http/Requests/Transaction/StoreTransactionRequest.php:20 | `exists` ignores ownership: a request naming another user's account is accepted and its row does not resolve |
| AccountController.Index | app/Http/Controllers/Api/AccountController.php:18-42 | exactly the user's accounts matching every supplied filter (type, subtype, active_only), newest first |
| AccountController.IndexByTypeIsScope | app/Http/Controllers/Api/AccountController.php:22-25 | type=asset lists the asset scope and type=liability the liability scope |
| AccountController.Summary | app/Http/Controllers/Api/AccountController.php:102-115 | net_worth = total_assets - total_liabilities, and active_accounts_count <= accounts_count |
| AccountController.Destroy | app/Http/Controllers/Api/AccountController.php:83-97 | 404 for no live account of the user; refused, changing nothing, exactly when a row has it as source; otherwise only its deleted flag is set |
| AccountController.DestroyDestinationThenDeleteTransfer | app/Http/Controllers/Api/AccountController.php:86-92 | an account used only as a transfer destination passes the guard and is deleted, after which deleting that transfer fails |
| AccountController.DeletingUnreferencedKeepsResolves | app/Http/Controllers/Api/AccountController.php:86-92 | deleting an account that no live row names, as source or destination, changes no live row's resolution |
| AccountController.DestroyUnreferenced | app/Http/Controllers/Api/AccountController.php:83-97 | the intended delete: refused while a live row names the account as source or destination; once deleted, every live row of the user resolves exactly as before |
| ContactController.Index | app/Http/Controllers/Api/ContactController.php:18-53 | exactly the user's contacts matching the status filter and active_only |
| ContactController.IndexStatusAgreesWithBalanceStatus | app/Http/Controllers/Api/ContactController.php:23-35 | a known status keeps the contacts with that balance status; an unknown one filters nothing |
| ContactController.BalancesSplitBySign | app/Http/Controllers/Api/ContactController.php:114-121 | positive balances plus negative balances = all balances of the user's contacts |
| ContactController.Summary | app/Http/Controllers/Api/ContactController.php:112-126 | both totals are >= 0; net_position = owed - owing = sum of all balances; settled_count <= contacts_count |
| ContactController.Destroy | app/Http/Controllers/Api/ContactController.php:93-107 | 404 for no live contact of the user; refused, changing nothing, exactly when the balance is not zero; otherwise only its deleted flag is set |
| ContactController.DestroyKeepsNetPosition | app/Http/Controllers/Api/ContactController.php:102 | deleting a settled contact leaves the net position unchanged |
| CategoryController.Index | app/Http/Controllers/Api/CategoryController.php:18-42 | exactly the user's categories matching every supplied filter, each once, in non-decreasing `order` |
| CategoryController.ParentOnlyIndexIsScope | app/Http/Controllers/Api/CategoryController.php:28-30 | parent_only lists exactly the parent-only scope |
| CategoryController.IndexByTypeIsScope | app/Http/Controllers/Api/CategoryController.php:22-25 | type=income lists exactly the income scope, and type=expense the expense scope |
| CategoryController.TypeFilterSplitsIndex | app/Http/Controllers/Api/CategoryController.php:18-37 | under the same flags, each listed category is in exactly one of the type=income and type=expense listings, and their lengths add up to the unfiltered listing's |
| CategoryController.Destroy | app/Http/Controllers/Api/CategoryController.php:85-106 | 404 for no live category; refused for transactions first, then for subcategories, changing nothing; otherwise only its deleted flag is set |
| CategoryController.DeletedCategoryOrphansNothing | app/Http/Controllers/Api/CategoryController.php:95-101 | a deleted category never leaves a live child behind |

## Left out

- HTTP and JSON: routes, response shapes, resources (which cast money to float for display), status codes beyond the `DestroyOutcome` and `WriteError` cases, and TransactionController, which only delegates. Its route model binding is `Bound`.
- Authentication and the global scope's `auth()` hook: the acting user is the `owner` parameter.
- Floating point: money is integer cents (the columns are `decimal(15,2)`), and request amounts below one cent are not representable.
- Budgets.PercentageUsed: returns an exact fraction instead of the float division of line 106.
- Database transactions, locking and concurrency: a failed write restores the snapshot taken before it.
- The clock: `now()`, `today()` and the week's start and end are parameters.
- Transactions.ScopeRecent: takes the cut-off moment (`now()` minus the days) as a parameter rather than computing it.
- Eloquent relation loading, `refresh`, timestamps, and the deletion timestamp; a soft delete is a `deleted` flag.
- TransactionService.UpdateBalances: a transfer from an account to itself is given its intended effect (no change). The source ends such an account at its balance + amount, which `BalanceEngine.TransferAsWritten` models (see "## Findings").
- TransactionService.ReverseBalances: a stored transfer from an account to itself is given its intended effect (no change). The source ends such an account at its balance - amount, which `BalanceEngine.ReverseTransferAsWritten` models (see "## Findings").
- Store.Database.UpdateAccountBalance: credits the row as stored, not the copy that `find` loaded. The two differ only after the same row was saved through another copy, which happens only in a self-transfer's two branches above.
- TransactionService.CreateTransaction: the `decimal(15,2)` range of the money columns is not modelled. No rule caps `amount`, so an amount or a balance beyond 9,999,999,999,999.99 makes the save fail on a strict database and rolls back. Amounts and balances here are unbounded and such a write succeeds.
- TransactionService.UpdateTransaction: the same `decimal(15,2)` range, and the failure of a save beyond it, are not modelled.
- AccountController.Index: `created_at desc` is modelled as descending id, because rows are appended in creation order. The order of rows created in the same second is not modelled.
- ContactController.Index: the `LIKE` name search and the `orderBy('name')` order are not modelled. Contacts carry no name here and the ids come in table order.
- CategoryController.Index: the eager loading of `children` is not modelled.
- `empty()` on an id of 0 or "0" is not modelled: request fields are typed options, and database ids are never 0.
- A `type` or `subtype` filter sent with a null value (`has` is true, `where` matches nothing) is not modelled.
- The free-text columns (title, description, reference number, metadata) and their length rules.
- UpdateTransactionRequest: its rule list is not modelled. The update takes any patch, and a patch whose rows do not resolve is rolled back.
- The other request classes (account, category, contact, register) are not modelled.
- Budgets.SpentAmount: the children of the budget's category are read as the budget's owner sees them. Any difference between the budget owner and the viewing user is not modelled.
- The budget's stored `period` label, its `scopeActive`, and BudgetController are not modelled.
- Authentication endpoints, seeders and migrations are not modelled; the migrations only supply the type enum and the money precision.
- The stores are sequences indexed by id, not maps. Creating an account, contact or category appends a row.

## Findings

| source | as written | input that shows it | evidently intended | confidence | as-written member | corrected member |
|---|---|---|---|---|---|---|
| app/Services/TransactionService.php:82-87 | both `Account` models are loaded before either is saved, so with `account_id == to_account_id` the second save overwrites the first and the account gains the amount | a stored transfer from account 3 to account 5, updated with only `to_account_id: 3`; the update request's `different:account_id` passes because `account_id` is absent from the request | a transfer from an account to itself leaves its balance unchanged, and every transfer conserves the sum of balances | medium, not executed | BalanceEngine.SelfTransferAsWrittenInflates | BalanceEngine.TransferConservesTotal |
| app/Services/TransactionService.php:136-140 | the reverse branch also loads both `Account` models before saving either, so for a stored self-transfer the second save overwrites the first and the account loses the amount | the self-transfer row stored by the previous row's input, then deleted, or updated again | reversing a transfer from an account to itself leaves its balance unchanged, and every reverse conserves the sum of balances | medium, not executed | BalanceEngine.SelfTransferReverseAsWrittenDeflates | BalanceEngine.TransferConservesTotal |
| app/Http/Controllers/Api/AccountController.php:86-92 | the delete guard counts only `transactions()`, the rows whose source is the account, and not `transfersIn()`; an account that is only a transfer's destination is deleted, and reversing that transfer then finds no account (TransactionService.php:137-139), so the transfer can never be deleted | a live transfer from account 3 to account 5 and no row with account 5 as source; delete account 5, then delete the transfer | an account still named by a live row, as source or destination, is not deleted, so every stored row stays reversible | medium, not executed | AccountController.DestroyDestinationThenDeleteTransfer | AccountController.DestroyUnreferenced |
