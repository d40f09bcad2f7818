/** The write path of app/Services/TransactionService.php. Each public
    operation runs as one database transaction: it either returns with all of
    its effects, or fails and every table is back where it started. */
module TransactionService {
  import opened Common
  import opened Transactions
  import opened Accounts
  import opened Contacts
  import opened BalanceEngine
  import opened Store

  /** Why a write failed: the route found no live row of the user (404), or
      a `find` returned null and the database transaction rolled back. */
  datatype WriteError = NotFound | UnresolvedReference

  datatype Result<T> = Success(value: T) | Failure(error: WriteError)

  /** The validated fields of an update request; an absent field keeps its
      stored value. The nullable references distinguish absent (`None`)
      from sent-as-null (`Some(None)`). */
  datatype TxnPatch = TxnPatch(
    txnType: Option<TxnType>,
    amount: Option<int>,
    accountId: Option<Id>,
    toAccountId: Option<Option<Id>>,
    categoryId: Option<Option<Id>>,
    contactId: Option<Option<Id>>,
    date: Option<Date>)

  function Or<T>(o: Option<T>, d: T): T {
    if o.Some? then o.value else d
  }

  /** `$transaction->update($data)`: the stored row with the sent fields
      overwritten. */
  function Patched(t: Txn, p: TxnPatch): (r: Txn)
    ensures r.owner == t.owner && r.deleted == t.deleted
    ensures p == TxnPatch(None, None, None, None, None, None, None) ==> r == t
  {
    t.(txnType := Or(p.txnType, t.txnType),
       amount := Or(p.amount, t.amount),
       accountId := if p.accountId.Some? then p.accountId else t.accountId,
       toAccountId := Or(p.toAccountId, t.toAccountId),
       categoryId := Or(p.categoryId, t.categoryId),
       contactId := Or(p.contactId, t.contactId),
       date := Or(p.date, t.date))
  }

  /** `updateBalances`: the switch on the row's type. Every `find` comes
      before the first write of its branch; a null `find` makes the next
      `updateBalance` call fail, possibly after the branch's first write,
      which the caller rolls back. A transfer from an account to itself is
      given its intended effect (none); the source's own effect is
      `BalanceEngine.TransferAsWritten`. */
  method UpdateBalances(db: Database, owner: Id, t: Txn) returns (ok: bool)
    modifies db`accounts, db`contacts
    ensures ok <==> Resolves(old(db.accounts), old(db.contacts), owner, t)
    ensures ok ==> db.accounts == ApplyToAccounts(old(db.accounts), owner, t, Apply)
    ensures ok ==> db.contacts == ApplyToContacts(old(db.contacts), owner, t, Apply)
  {
    var amount := t.amount;
    var account := FindAccount(db.accounts, owner, t.accountId);
    match t.txnType {
      case Income =>
        if account.None? { return false; }
        db.UpdateAccountBalance(account.value, amount);
      case Expense =>
        if account.None? { return false; }
        db.UpdateAccountBalance(account.value, -amount);
      case Transfer =>
        var toAccount := FindAccount(db.accounts, owner, t.toAccountId);
        if account.None? { return false; }
        db.UpdateAccountBalance(account.value, -amount);
        if toAccount.None? { return false; }
        db.UpdateAccountBalance(toAccount.value, amount);
      case Lent =>
        var contact := FindContact(db.contacts, owner, t.contactId);
        if account.None? { return false; }
        db.UpdateAccountBalance(account.value, -amount);
        if contact.None? { return false; }
        db.UpdateContactBalance(contact.value, amount);
      case Borrowed =>
        var contact := FindContact(db.contacts, owner, t.contactId);
        if account.None? { return false; }
        db.UpdateAccountBalance(account.value, amount);
        if contact.None? { return false; }
        db.UpdateContactBalance(contact.value, -amount);
      case RepaymentIn =>
        var contact := FindContact(db.contacts, owner, t.contactId);
        if account.None? { return false; }
        db.UpdateAccountBalance(account.value, amount);
        if contact.None? { return false; }
        db.UpdateContactBalance(contact.value, -amount);
      case RepaymentOut =>
        var contact := FindContact(db.contacts, owner, t.contactId);
        if account.None? { return false; }
        db.UpdateAccountBalance(account.value, -amount);
        if contact.None? { return false; }
        db.UpdateContactBalance(contact.value, amount);
    }
    ok := true;
  }

  /** `reverseBalances`: the same switch with every sign flipped. A stored
      transfer from an account to itself is given its intended effect
      (none); the source's own effect is
      `BalanceEngine.ReverseTransferAsWritten`. */
  method ReverseBalances(db: Database, owner: Id, t: Txn) returns (ok: bool)
    modifies db`accounts, db`contacts
    ensures ok <==> Resolves(old(db.accounts), old(db.contacts), owner, t)
    ensures ok ==> db.accounts == ApplyToAccounts(old(db.accounts), owner, t, Reverse)
    ensures ok ==> db.contacts == ApplyToContacts(old(db.contacts), owner, t, Reverse)
  {
    var amount := t.amount;
    var account := FindAccount(db.accounts, owner, t.accountId);
    match t.txnType {
      case Income =>
        if account.None? { return false; }
        db.UpdateAccountBalance(account.value, -amount);
      case Expense =>
        if account.None? { return false; }
        db.UpdateAccountBalance(account.value, amount);
      case Transfer =>
        var toAccount := FindAccount(db.accounts, owner, t.toAccountId);
        if account.None? { return false; }
        db.UpdateAccountBalance(account.value, amount);
        if toAccount.None? { return false; }
        db.UpdateAccountBalance(toAccount.value, -amount);
      case Lent =>
        var contact := FindContact(db.contacts, owner, t.contactId);
        if account.None? { return false; }
        db.UpdateAccountBalance(account.value, amount);
        if contact.None? { return false; }
        db.UpdateContactBalance(contact.value, -amount);
      case Borrowed =>
        var contact := FindContact(db.contacts, owner, t.contactId);
        if account.None? { return false; }
        db.UpdateAccountBalance(account.value, -amount);
        if contact.None? { return false; }
        db.UpdateContactBalance(contact.value, amount);
      case RepaymentIn =>
        var contact := FindContact(db.contacts, owner, t.contactId);
        if account.None? { return false; }
        db.UpdateAccountBalance(account.value, -amount);
        if contact.None? { return false; }
        db.UpdateContactBalance(contact.value, amount);
      case RepaymentOut =>
        var contact := FindContact(db.contacts, owner, t.contactId);
        if account.None? { return false; }
        db.UpdateAccountBalance(account.value, amount);
        if contact.None? { return false; }
        db.UpdateContactBalance(contact.value, -amount);
    }
    ok := true;
  }

  /** The row `createTransaction` persists from validated `data`: the
      creating hook stamps the acting user as its owner. */
  function NewRow(owner: Id, data: Txn): (r: Txn)
    ensures TxnVisible(r, owner)
  {
    data.(owner := owner, deleted := false)
  }

  /** `createTransaction`: persist the row, then apply it. */
  method CreateTransaction(db: Database, owner: Id, data: Txn) returns (r: Result<Id>)
    requires db.Valid()
    modifies db`transactions, db`accounts, db`contacts
    ensures db.Valid()
    ensures var row := NewRow(owner, data);
      if Resolves(old(db.accounts), old(db.contacts), owner, row) then
        r == Success(|old(db.transactions)|)
        && db.transactions == old(db.transactions) + [row]
        && db.accounts == ApplyToAccounts(old(db.accounts), owner, row, Apply)
        && db.contacts == ApplyToContacts(old(db.contacts), owner, row, Apply)
      else
        r == Failure(UnresolvedReference)
        && db.transactions == old(db.transactions) && db.accounts == old(db.accounts) && db.contacts == old(db.contacts)
  {
    var savedAccounts, savedContacts, savedTransactions := db.accounts, db.contacts, db.transactions;
    var row := NewRow(owner, data);
    var id := |db.transactions|;
    db.transactions := db.transactions + [row];
    var ok := UpdateBalances(db, owner, row);
    if !ok {
      db.accounts, db.contacts, db.transactions := savedAccounts, savedContacts, savedTransactions;
      return Failure(UnresolvedReference);
    }
    CreateKeepsReconciled(savedAccounts, savedContacts, savedTransactions, db.openingAccounts, db.openingContacts, owner, row);
    r := Success(id);
  }

  /** The route's model binding: a live row of the acting user. */
  predicate Bound(txns: seq<Txn>, owner: Id, id: Id) {
    id < |txns| && TxnVisible(txns[id], owner)
  }

  /** `deleteTransaction`: reverse the stored row, then soft-delete it. */
  method DeleteTransaction(db: Database, owner: Id, id: Id) returns (r: Result<bool>)
    requires db.Valid()
    modifies db`transactions, db`accounts, db`contacts
    ensures db.Valid()
    ensures if !Bound(old(db.transactions), owner, id) then
        r == Failure(NotFound)
        && db.transactions == old(db.transactions) && db.accounts == old(db.accounts) && db.contacts == old(db.contacts)
      else if !Resolves(old(db.accounts), old(db.contacts), owner, old(db.transactions)[id]) then
        r == Failure(UnresolvedReference)
        && db.transactions == old(db.transactions) && db.accounts == old(db.accounts) && db.contacts == old(db.contacts)
      else
        var row := old(db.transactions)[id];
        r == Success(true)
        && db.transactions == old(db.transactions)[id := row.(deleted := true)]
        && db.accounts == ApplyToAccounts(old(db.accounts), owner, row, Reverse)
        && db.contacts == ApplyToContacts(old(db.contacts), owner, row, Reverse)
  {
    if !Bound(db.transactions, owner, id) {
      return Failure(NotFound);
    }
    var savedAccounts, savedContacts := db.accounts, db.contacts;
    var row := db.transactions[id];
    var ok := ReverseBalances(db, owner, row);
    if !ok {
      db.accounts, db.contacts := savedAccounts, savedContacts;
      return Failure(UnresolvedReference);
    }
    DeleteKeepsReconciled(savedAccounts, savedContacts, db.transactions, db.openingAccounts, db.openingContacts, owner, id);
    db.transactions := db.transactions[id := row.(deleted := true)];
    r := Success(true);
  }

  /** `updateTransaction`: reverse the stored row, persist the patched row,
      apply it. */
  method UpdateTransaction(db: Database, owner: Id, id: Id, patch: TxnPatch) returns (r: Result<Txn>)
    requires db.Valid()
    modifies db`transactions, db`accounts, db`contacts
    ensures db.Valid()
    ensures if !Bound(old(db.transactions), owner, id) then
        r == Failure(NotFound)
        && db.transactions == old(db.transactions) && db.accounts == old(db.accounts) && db.contacts == old(db.contacts)
      else
        var stored := old(db.transactions)[id];
        var row := Patched(stored, patch);
        if !Resolves(old(db.accounts), old(db.contacts), owner, stored)
           || !Resolves(old(db.accounts), old(db.contacts), owner, row) then
          r == Failure(UnresolvedReference)
          && db.transactions == old(db.transactions) && db.accounts == old(db.accounts) && db.contacts == old(db.contacts)
        else
          Resolves(ApplyToAccounts(old(db.accounts), owner, stored, Reverse),
                   ApplyToContacts(old(db.contacts), owner, stored, Reverse), owner, row)
          && r == Success(row)
          && db.transactions == old(db.transactions)[id := row]
          && db.accounts == ApplyToAccounts(ApplyToAccounts(old(db.accounts), owner, stored, Reverse), owner, row, Apply)
          && db.contacts == ApplyToContacts(ApplyToContacts(old(db.contacts), owner, stored, Reverse), owner, row, Apply)
  {
    if !Bound(db.transactions, owner, id) {
      return Failure(NotFound);
    }
    var savedAccounts, savedContacts, savedTransactions := db.accounts, db.contacts, db.transactions;
    var stored := db.transactions[id];
    var ok := ReverseBalances(db, owner, stored);
    if !ok {
      db.accounts, db.contacts := savedAccounts, savedContacts;
      return Failure(UnresolvedReference);
    }
    var row := Patched(stored, patch);
    ApplyKeepsResolves(savedAccounts, savedContacts, owner, stored, Reverse, row);
    db.transactions := db.transactions[id := row];
    ok := UpdateBalances(db, owner, row);
    if !ok {
      db.accounts, db.contacts, db.transactions := savedAccounts, savedContacts, savedTransactions;
      return Failure(UnresolvedReference);
    }
    UpdateKeepsReconciled(savedAccounts, savedContacts, savedTransactions, db.openingAccounts, db.openingContacts, owner, id, row);
    r := Success(row);
  }

  /** Creating a transaction and then deleting it leaves every account and
      contact balance where it was. */
  method CreateThenDelete(db: Database, owner: Id, data: Txn) returns (ok: bool)
    requires db.Valid()
    modifies db`transactions, db`accounts, db`contacts
    ensures db.Valid()
    ensures ok <==> Resolves(old(db.accounts), old(db.contacts), owner, NewRow(owner, data))
    ensures db.accounts == old(db.accounts) && db.contacts == old(db.contacts)
  {
    var created := CreateTransaction(db, owner, data);
    if created.Failure? {
      return false;
    }
    ghost var row := NewRow(owner, data);
    ReverseUndoesApply(old(db.accounts), old(db.contacts), owner, row);
    var deleted := DeleteTransaction(db, owner, created.value);
    ok := deleted.Success?;
  }
}
