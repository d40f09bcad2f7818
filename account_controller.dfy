/** The account endpoints (app/Http/Controllers/Api/AccountController.php):
    the listing's filters and order, the delete guard, and the summary. */
module AccountController {
  import opened Common
  import opened Transactions
  import opened Accounts
  import Contacts
  import opened BalanceEngine
  import opened Users
  import opened Store
  import opened TransactionService

  /** The listing's query string: `type` and `subtype` when present, and
      the `active_only` flag. */
  datatype AccountQuery = AccountQuery(typeName: Option<string>, subtypeName: Option<string>, activeOnly: bool)

  /** The conjunction of the filters the query asks for, over the user's
      live accounts. */
  predicate Matches(a: Account, owner: Id, q: AccountQuery) {
    AccountVisible(a, owner)
    && (q.typeName.Some? ==> AccountTypeName(a.accountType) == q.typeName.value)
    && (q.subtypeName.Some? ==> SubtypeName(a.subtype) == q.subtypeName.value)
    && (q.activeOnly ==> a.isActive)
  }

  function MatchFilter(owner: Id, q: AccountQuery): Account -> bool {
    (a: Account) => Matches(a, owner, q)
  }

  /** `index`: the matching accounts, newest first. Rows are appended in
      creation order, so `created_at desc` is descending id. */
  function Index(accounts: seq<Account>, owner: Id, q: AccountQuery): (ids: seq<Id>)
    ensures forall i: nat :: i in ids <==> i < |accounts| && Matches(accounts[i], owner, q)
    ensures forall j, k :: 0 <= j < k < |ids| ==> ids[j] > ids[k]
  {
    var asc := Where(accounts, MatchFilter(owner, q));
    var ids := Reversed(asc);
    assert forall i :: i in ids <==> i in asc by {
      forall i ensures i in ids ==> i in asc {
        if i in ids {
          var k :| 0 <= k < |ids| && ids[k] == i;
          assert asc[|asc| - 1 - k] == i;
        }
      }
      forall i ensures i in asc ==> i in ids {
        if i in asc {
          var k :| 0 <= k < |asc| && asc[k] == i;
          assert ids[|asc| - 1 - k] == i;
        }
      }
    }
    ids
  }

  /** Asking for `type=asset` lists exactly the accounts of the asset
      scope, and `type=liability` those of the liability scope. */
  lemma IndexByTypeIsScope(accounts: seq<Account>, owner: Id)
    ensures forall i: nat :: i in Index(accounts, owner, AccountQuery(Some("asset"), None, false)) <==> i in ScopeAsset(accounts, owner)
    ensures forall i: nat :: i in Index(accounts, owner, AccountQuery(Some("liability"), None, false)) <==> i in ScopeLiability(accounts, owner)
  {
    forall t: AccountType ensures (AccountTypeName(t) == "asset" <==> t == Asset) && (AccountTypeName(t) == "liability" <==> t == Liability) {
    }
  }

  /** The `summary` response. */
  datatype AccountSummary = AccountSummary(
    totalAssets: int,
    totalLiabilities: int,
    netWorth: int,
    accountsCount: nat,
    activeAccountsCount: nat)

  function VisibleFilter(owner: Id): Account -> bool {
    (a: Account) => AccountVisible(a, owner)
  }

  /** `summary`: the user's totals, net worth as their difference, and the
      number of accounts and of active accounts. */
  function Summary(accounts: seq<Account>, owner: Id): (s: AccountSummary)
    ensures s.totalAssets == TotalAssets(accounts, owner) && s.totalLiabilities == TotalLiabilities(accounts, owner)
    ensures s.netWorth == s.totalAssets - s.totalLiabilities
    ensures s.activeAccountsCount <= s.accountsCount
  {
    CountMonotone(accounts, ActiveFilter(owner), VisibleFilter(owner));
    AccountSummary(TotalAssets(accounts, owner), TotalLiabilities(accounts, owner), NetWorth(accounts, owner),
                   Count(accounts, VisibleFilter(owner)), Count(accounts, ActiveFilter(owner)))
  }

  /** `destroy`: the route finds only the user's live accounts; an account
      with a row in `transactions()` (rows whose source it is) is refused;
      otherwise it is soft-deleted. */
  method Destroy(db: Database, owner: Id, id: Id) returns (r: DestroyOutcome)
    requires db.Valid()
    modifies db`accounts
    ensures db.Valid()
    ensures r == Missing <==> !(id < |old(db.accounts)| && AccountVisible(old(db.accounts)[id], owner))
    ensures r == Rejected(HasTransactions) <==>
      id < |old(db.accounts)| && AccountVisible(old(db.accounts)[id], owner) && |TransactionsOf(db.transactions, owner, id)| > 0
    ensures r in {Missing, Rejected(HasTransactions), Deleted}
    ensures r != Deleted ==> db.accounts == old(db.accounts)
    ensures r == Deleted ==> db.accounts == old(db.accounts)[id := old(db.accounts)[id].(deleted := true)]
  {
    if !(id < |db.accounts| && AccountVisible(db.accounts[id], owner)) {
      return Missing;
    }
    if |TransactionsOf(db.transactions, owner, id)| > 0 {
      return Rejected(HasTransactions);
    }
    db.accounts := db.accounts[id := db.accounts[id].(deleted := true)];
    r := Deleted;
  }

  /** An account that is only ever a transfer destination passes the
      guard and is deleted; the transfer into it then cannot be deleted,
      because reversing it looks the deleted account up and gets nothing. */
  method DestroyDestinationThenDeleteTransfer(db: Database, owner: Id, id: Id, i: Id)
    returns (destroyed: DestroyOutcome, deletion: Result<bool>)
    requires db.Valid()
    requires id < |db.accounts| && AccountVisible(db.accounts[id], owner)
    requires |TransactionsOf(db.transactions, owner, id)| == 0
    requires i < |db.transactions| && TxnVisible(db.transactions[i], owner)
    requires db.transactions[i].txnType == Transfer && db.transactions[i].toAccountId == Some(id)
    modifies db`accounts, db`transactions, db`contacts
    ensures destroyed == Deleted && deletion == Failure(UnresolvedReference)
    ensures db.transactions == old(db.transactions) && db.contacts == old(db.contacts)
  {
    destroyed := Destroy(db, owner, id);
    deletion := DeleteTransaction(db, owner, i);
  }

  /** The guard `destroy` evidently intends: no live row of the user names
      the account, neither as its source (`transactions()`) nor as its
      destination (`transfersIn()`). */
  predicate Unreferenced(txns: seq<Txn>, owner: Id, id: Id) {
    |TransactionsOf(txns, owner, id)| == 0 && |TransfersIn(txns, owner, id)| == 0
  }

  /** Soft-deleting an account that passes the intended guard changes no
      live row's resolution, so every row that could be reversed before
      can still be reversed after. */
  lemma DeletingUnreferencedKeepsResolves(accounts: seq<Account>, contacts: seq<Contacts.Contact>, txns: seq<Txn>, owner: Id, id: Id, i: Id)
    requires id < |accounts| && Unreferenced(txns, owner, id)
    requires i < |txns| && TxnVisible(txns[i], owner)
    ensures Resolves(accounts[id := accounts[id].(deleted := true)], contacts, owner, txns[i])
      <==> Resolves(accounts, contacts, owner, txns[i])
  {
    assert i !in TransactionsOf(txns, owner, id) && i !in TransfersIn(txns, owner, id);
    assert txns[i].accountId != Some(id) && txns[i].toAccountId != Some(id);
  }

  /** `destroy` with the intended guard: an account still named by a live
      row, as source or as destination, is refused; a deleted one leaves
      every live row of the user resolving as before. */
  method DestroyUnreferenced(db: Database, owner: Id, id: Id) returns (r: DestroyOutcome)
    requires db.Valid()
    modifies db`accounts
    ensures db.Valid()
    ensures r == Missing <==> !(id < |old(db.accounts)| && AccountVisible(old(db.accounts)[id], owner))
    ensures r == Rejected(HasTransactions) <==>
      id < |old(db.accounts)| && AccountVisible(old(db.accounts)[id], owner) && !Unreferenced(db.transactions, owner, id)
    ensures r in {Missing, Rejected(HasTransactions), Deleted}
    ensures r != Deleted ==> db.accounts == old(db.accounts)
    ensures r == Deleted ==> db.accounts == old(db.accounts)[id := old(db.accounts)[id].(deleted := true)]
    ensures forall i :: 0 <= i < |db.transactions| && TxnVisible(db.transactions[i], owner) ==>
      (Resolves(db.accounts, db.contacts, owner, db.transactions[i]) <==> Resolves(old(db.accounts), db.contacts, owner, db.transactions[i]))
  {
    if !(id < |db.accounts| && AccountVisible(db.accounts[id], owner)) {
      return Missing;
    }
    if !Unreferenced(db.transactions, owner, id) {
      return Rejected(HasTransactions);
    }
    forall i | 0 <= i < |db.transactions| && TxnVisible(db.transactions[i], owner)
      ensures Resolves(db.accounts[id := db.accounts[id].(deleted := true)], db.contacts, owner, db.transactions[i])
        <==> Resolves(db.accounts, db.contacts, owner, db.transactions[i])
    {
      DeletingUnreferencedKeepsResolves(db.accounts, db.contacts, db.transactions, owner, id, i);
    }
    db.accounts := db.accounts[id := db.accounts[id].(deleted := true)];
    r := Deleted;
  }
}
