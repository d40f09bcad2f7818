/** The ledger's tables as one mutable store. Each table is a sequence of rows
    indexed by row id; a delete only sets a row's `deleted` flag. */
module Store {
  import opened Common
  import opened Transactions
  import opened Accounts
  import opened Contacts
  import opened Categories
  import opened BalanceEngine

  /** Every account's balance is its opening balance plus the ledger of
      live transactions rows on it, and likewise for every contact. */
  ghost predicate Reconciled(accounts: seq<Account>, contacts: seq<Contact>, txns: seq<Txn>,
                             openingAccounts: seq<int>, openingContacts: seq<int>)
  {
    |openingAccounts| == |accounts| && |openingContacts| == |contacts|
    && (forall j :: 0 <= j < |accounts| ==> accounts[j].balance == openingAccounts[j] + AccountLedger(txns, j))
    && (forall k :: 0 <= k < |contacts| ==> contacts[k].balance == openingContacts[k] + ContactLedger(txns, k))
  }

  /** Creating a row (persist it, then apply it) keeps the books reconciled. */
  lemma {:induction false} CreateKeepsReconciled(accounts: seq<Account>, contacts: seq<Contact>, txns: seq<Txn>,
                                                 oa: seq<int>, oc: seq<int>, owner: Id, t: Txn)
    requires Reconciled(accounts, contacts, txns, oa, oc)
    requires Resolves(accounts, contacts, owner, t) && Live(t)
    ensures Reconciled(ApplyToAccounts(accounts, owner, t, Apply), ApplyToContacts(contacts, owner, t, Apply), txns + [t], oa, oc)
  {
    LedgerAppend(txns, t);
  }

  /** Deleting a row (reverse it, then soft-delete it) keeps the books
      reconciled. */
  lemma {:induction false} DeleteKeepsReconciled(accounts: seq<Account>, contacts: seq<Contact>, txns: seq<Txn>,
                                                 oa: seq<int>, oc: seq<int>, owner: Id, i: nat)
    requires Reconciled(accounts, contacts, txns, oa, oc)
    requires i < |txns| && Live(txns[i]) && Resolves(accounts, contacts, owner, txns[i])
    ensures Reconciled(ApplyToAccounts(accounts, owner, txns[i], Reverse), ApplyToContacts(contacts, owner, txns[i], Reverse),
                       txns[i := txns[i].(deleted := true)], oa, oc)
  {
    LedgerReplace(txns, i, txns[i].(deleted := true));
  }

  /** Updating a row (reverse the stored row, persist the new one, apply it)
      keeps the books reconciled. */
  lemma {:induction false} UpdateKeepsReconciled(accounts: seq<Account>, contacts: seq<Contact>, txns: seq<Txn>,
                                                 oa: seq<int>, oc: seq<int>, owner: Id, i: nat, t: Txn)
    requires Reconciled(accounts, contacts, txns, oa, oc)
    requires i < |txns| && Live(txns[i]) && Live(t)
    requires Resolves(accounts, contacts, owner, txns[i]) && Resolves(accounts, contacts, owner, t)
    ensures Resolves(ApplyToAccounts(accounts, owner, txns[i], Reverse), ApplyToContacts(contacts, owner, txns[i], Reverse), owner, t)
    ensures Reconciled(
      ApplyToAccounts(ApplyToAccounts(accounts, owner, txns[i], Reverse), owner, t, Apply),
      ApplyToContacts(ApplyToContacts(contacts, owner, txns[i], Reverse), owner, t, Apply),
      txns[i := t], oa, oc)
  {
    UpdateNetEffect(accounts, contacts, owner, txns[i], t);
    LedgerReplace(txns, i, t);
  }

  /** Why a controller's `destroy` refused to delete a row. */
  datatype RejectReason = HasTransactions | HasSubcategories | UnsettledBalance

  /** The answer of a controller's `destroy`: the route found no row of the
      user (404), a guard refused (422), or the row was soft-deleted. */
  datatype DestroyOutcome = Missing | Rejected(reason: RejectReason) | Deleted

  class Database {
    var accounts: seq<Account>
    var contacts: seq<Contact>
    var categories: seq<Category>
    var transactions: seq<Txn>
    /** The balance each account would have if no live transactions row
        touched it. */
    ghost var openingAccounts: seq<int>
    ghost var openingContacts: seq<int>

    ghost predicate Valid()
      reads this
    {
      Reconciled(accounts, contacts, transactions, openingAccounts, openingContacts)
    }

    constructor ()
      ensures Valid()
      ensures accounts == [] && contacts == [] && categories == [] && transactions == []
    {
      accounts := [];
      contacts := [];
      categories := [];
      transactions := [];
      openingAccounts := [];
      openingContacts := [];
    }

    /** `Account::create`: appends the row; its id is its position. */
    method AddAccount(a: Account) returns (id: Id)
      requires Valid()
      modifies this`accounts, this`openingAccounts
      ensures Valid()
      ensures id == |old(accounts)| && accounts == old(accounts) + [a]
    {
      id := |accounts|;
      openingAccounts := openingAccounts + [a.balance - AccountLedger(transactions, id)];
      accounts := accounts + [a];
    }

    /** `Contact::create`: appends the row; its id is its position. */
    method AddContact(c: Contact) returns (id: Id)
      requires Valid()
      modifies this`contacts, this`openingContacts
      ensures Valid()
      ensures id == |old(contacts)| && contacts == old(contacts) + [c]
    {
      id := |contacts|;
      openingContacts := openingContacts + [c.balance - ContactLedger(transactions, id)];
      contacts := contacts + [c];
    }

    /** `Category::create`: appends the row; its id is its position. */
    method AddCategory(c: Category) returns (id: Id)
      modifies this`categories
      ensures id == |old(categories)| && categories == old(categories) + [c]
    {
      id := |categories|;
      categories := categories + [c];
    }

    /** `Account::updateBalance` on the row `id`: its stored balance grows
        by `x`. The source adds `x` to the copy it loaded with `find` and
        saves that copy; the two agree unless that row was saved through
        another copy in between, which happens only in the transfer
        branches of a self-transfer (`BalanceEngine.TransferAsWritten`,
        `BalanceEngine.ReverseTransferAsWritten`). */
    method UpdateAccountBalance(id: Id, x: int)
      requires id < |accounts|
      modifies this`accounts
      ensures accounts == CreditAccount(old(accounts), id, x)
    {
      var row := accounts[id];
      accounts := accounts[id := row.(balance := row.balance + x)];
    }

    /** `Contact::updateBalance` on the row `id`: its stored balance grows
        by `x`. No branch loads the same contact twice, so the copy the
        source loaded with `find` always holds the stored balance. */
    method UpdateContactBalance(id: Id, x: int)
      requires id < |contacts|
      modifies this`contacts
      ensures contacts == CreditContact(old(contacts), id, x)
    {
      var row := contacts[id];
      contacts := contacts[id := row.(balance := row.balance + x)];
    }
  }
}
