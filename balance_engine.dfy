/** The effect table of app/Services/TransactionService.php, as values: what
    applying or reversing one transactions row does to the account and
    contact balances, and the running ledger that those effects add up to. */
module BalanceEngine {
  import opened Common
  import opened Transactions
  import opened Accounts
  import opened Contacts

  /** `updateBalances` applies a row; `reverseBalances` undoes it. */
  datatype Direction = Apply | Reverse

  function Signed(dir: Direction, x: int): int {
    if dir == Apply then x else -x
  }

  /** What applying the row does to its own (source) account. */
  function AccountEffect(t: Txn): int {
    match t.txnType
    case Income => t.amount
    case Expense => -t.amount
    case Transfer => -t.amount
    case Lent => -t.amount
    case Borrowed => t.amount
    case RepaymentIn => t.amount
    case RepaymentOut => -t.amount
  }

  /** What applying the row does to its contact; zero for the types that
      have none. */
  function ContactEffect(t: Txn): int {
    match t.txnType
    case Lent => t.amount
    case Borrowed => -t.amount
    case RepaymentIn => -t.amount
    case RepaymentOut => t.amount
    case _ => 0
  }

  /** The effect table, column by column: money in for income, borrowed and
      repayment_in; money out for the rest; the contact moves opposite to
      the account for every debt type. */
  lemma EffectTable(t: Txn)
    ensures t.txnType in {Income, Borrowed, RepaymentIn} ==> AccountEffect(t) == t.amount
    ensures t.txnType in {Expense, Transfer, Lent, RepaymentOut} ==> AccountEffect(t) == -t.amount
    ensures IsDebtRelated(t) ==> ContactEffect(t) == -AccountEffect(t)
    ensures !IsDebtRelated(t) ==> ContactEffect(t) == 0
  {
  }

  /** What applying row `t` adds to the balance of account `j`: the source
      effect when `j` is the row's account, plus the amount when `j` is the
      destination of a transfer. */
  function AccountDelta(t: Txn, j: Id): int {
    (if t.accountId == Some(j) then AccountEffect(t) else 0)
    + (if t.txnType == Transfer && t.toAccountId == Some(j) then t.amount else 0)
  }

  /** What applying row `t` adds to the balance of contact `k`. */
  function ContactDelta(t: Txn, k: Id): int {
    if IsDebtRelated(t) && t.contactId == Some(k) then ContactEffect(t) else 0
  }

  // ---------------------------------------------------------------------
  // Which rows the engine can apply
  // ---------------------------------------------------------------------

  /** Every account `find` the row's type performs returns a row. */
  predicate AccountsResolve(accounts: seq<Account>, owner: Id, t: Txn) {
    FindAccount(accounts, owner, t.accountId).Some?
    && (t.txnType == Transfer ==> FindAccount(accounts, owner, t.toAccountId).Some?)
  }

  /** The contact `find` of a debt type returns a row. */
  predicate ContactResolves(contacts: seq<Contact>, owner: Id, t: Txn) {
    IsDebtRelated(t) ==> FindContact(contacts, owner, t.contactId).Some?
  }

  /** No `find` of the row's type returns null, so no `updateBalance` call
      is made on null and the database transaction is not rolled back. */
  predicate Resolves(accounts: seq<Account>, contacts: seq<Contact>, owner: Id, t: Txn) {
    AccountsResolve(accounts, owner, t) && ContactResolves(contacts, owner, t)
  }

  // ---------------------------------------------------------------------
  // Applying and reversing one row
  // ---------------------------------------------------------------------

  /** The accounts table after the row is applied or reversed: each account
      moves by its delta and nothing else about any account changes. */
  function ApplyToAccounts(accounts: seq<Account>, owner: Id, t: Txn, dir: Direction): (r: seq<Account>)
    requires AccountsResolve(accounts, owner, t)
    ensures |r| == |accounts|
    ensures forall j :: 0 <= j < |r| ==>
      r[j] == accounts[j].(balance := accounts[j].balance + Signed(dir, AccountDelta(t, j)))
  {
    var src := CreditAccount(accounts, t.accountId.value, Signed(dir, AccountEffect(t)));
    if t.txnType == Transfer then CreditAccount(src, t.toAccountId.value, Signed(dir, t.amount)) else src
  }

  /** The contacts table after the row is applied or reversed. */
  function ApplyToContacts(contacts: seq<Contact>, owner: Id, t: Txn, dir: Direction): (r: seq<Contact>)
    requires ContactResolves(contacts, owner, t)
    ensures |r| == |contacts|
    ensures forall k :: 0 <= k < |r| ==>
      r[k] == contacts[k].(balance := contacts[k].balance + Signed(dir, ContactDelta(t, k)))
  {
    if IsDebtRelated(t) then CreditContact(contacts, t.contactId.value, Signed(dir, ContactEffect(t)))
    else contacts
  }

  /** Balances play no part in `find`, so applying one row does not change
      which rows any other row resolves against. */
  lemma ApplyKeepsResolves(accounts: seq<Account>, contacts: seq<Contact>, owner: Id, t: Txn, dir: Direction, u: Txn)
    requires Resolves(accounts, contacts, owner, t)
    ensures Resolves(ApplyToAccounts(accounts, owner, t, dir), ApplyToContacts(contacts, owner, t, dir), owner, u)
        <==> Resolves(accounts, contacts, owner, u)
  {
  }

  /** Reversing a row after applying it restores every account and every
      contact exactly. */
  lemma ReverseUndoesApply(accounts: seq<Account>, contacts: seq<Contact>, owner: Id, t: Txn)
    requires Resolves(accounts, contacts, owner, t)
    ensures Resolves(ApplyToAccounts(accounts, owner, t, Apply), ApplyToContacts(contacts, owner, t, Apply), owner, t)
    ensures ApplyToAccounts(ApplyToAccounts(accounts, owner, t, Apply), owner, t, Reverse) == accounts
    ensures ApplyToContacts(ApplyToContacts(contacts, owner, t, Apply), owner, t, Reverse) == contacts
  {
    ApplyKeepsResolves(accounts, contacts, owner, t, Apply, t);
    var a1 := ApplyToAccounts(accounts, owner, t, Apply);
    var a2 := ApplyToAccounts(a1, owner, t, Reverse);
    assert forall j :: 0 <= j < |a2| ==> a2[j] == accounts[j];
    var c1 := ApplyToContacts(contacts, owner, t, Apply);
    var c2 := ApplyToContacts(c1, owner, t, Reverse);
    assert forall k :: 0 <= k < |c2| ==> c2[k] == contacts[k];
  }

  /** Only the row's account, its transfer destination and its contact
      change; every other balance is untouched. */
  lemma OnlyReferencedChange(accounts: seq<Account>, contacts: seq<Contact>, owner: Id, t: Txn, dir: Direction)
    requires Resolves(accounts, contacts, owner, t)
    ensures forall j :: 0 <= j < |accounts| && t.accountId != Some(j) && (t.txnType != Transfer || t.toAccountId != Some(j)) ==>
      ApplyToAccounts(accounts, owner, t, dir)[j] == accounts[j]
    ensures forall k :: 0 <= k < |contacts| && (!IsDebtRelated(t) || t.contactId != Some(k)) ==>
      ApplyToContacts(contacts, owner, t, dir)[k] == contacts[k]
  {
  }

  /** An update reverses the stored row and applies the new one: each
      account ends at its old balance minus the old row's delta plus the
      new row's delta. */
  lemma UpdateNetEffect(accounts: seq<Account>, contacts: seq<Contact>, owner: Id, oldRow: Txn, newRow: Txn)
    requires Resolves(accounts, contacts, owner, oldRow) && Resolves(accounts, contacts, owner, newRow)
    ensures Resolves(ApplyToAccounts(accounts, owner, oldRow, Reverse), ApplyToContacts(contacts, owner, oldRow, Reverse), owner, newRow)
    ensures var r := ApplyToAccounts(ApplyToAccounts(accounts, owner, oldRow, Reverse), owner, newRow, Apply);
      forall j :: 0 <= j < |accounts| ==>
        r[j].balance == accounts[j].balance - AccountDelta(oldRow, j) + AccountDelta(newRow, j)
    ensures var r := ApplyToContacts(ApplyToContacts(contacts, owner, oldRow, Reverse), owner, newRow, Apply);
      forall k :: 0 <= k < |contacts| ==>
        r[k].balance == contacts[k].balance - ContactDelta(oldRow, k) + ContactDelta(newRow, k)
  {
    ApplyKeepsResolves(accounts, contacts, owner, oldRow, Reverse, newRow);
  }

  // ---------------------------------------------------------------------
  // Totals
  // ---------------------------------------------------------------------

  function AccountsTotal(accounts: seq<Account>): int {
    SumOf(accounts, Everything(), BalanceOf)
  }

  function ContactsTotal(contacts: seq<Contact>): int {
    SumOf(contacts, Everything(), ContactBalance)
  }

  /** What the row does to the user's combined position (all accounts plus
      all contact balances): only income and expense move it. */
  function PositionEffect(t: Txn): int {
    if t.txnType == Income then t.amount
    else if t.txnType == Expense then -t.amount
    else 0
  }

  /** A transfer conserves the sum of all account balances, whether or not
      its source and destination coincide. */
  lemma TransferConservesTotal(accounts: seq<Account>, owner: Id, t: Txn, dir: Direction)
    requires AccountsResolve(accounts, owner, t) && t.txnType == Transfer
    ensures AccountsTotal(ApplyToAccounts(accounts, owner, t, dir)) == AccountsTotal(accounts)
  {
    var src := t.accountId.value;
    var a1 := CreditAccount(accounts, src, Signed(dir, AccountEffect(t)));
    SumOfUpdate(accounts, src, a1[src], Everything(), BalanceOf);
    assert accounts[src := a1[src]] == a1;
    var dst := t.toAccountId.value;
    var a2 := CreditAccount(a1, dst, Signed(dir, t.amount));
    SumOfUpdate(a1, dst, a2[dst], Everything(), BalanceOf);
    assert a1[dst := a2[dst]] == a2;
  }

  /** Debts and transfers only move money between the user's accounts and
      contacts; the combined position changes by the income or expense
      amount alone. */
  lemma PositionChange(accounts: seq<Account>, contacts: seq<Contact>, owner: Id, t: Txn, dir: Direction)
    requires Resolves(accounts, contacts, owner, t)
    ensures AccountsTotal(ApplyToAccounts(accounts, owner, t, dir)) + ContactsTotal(ApplyToContacts(contacts, owner, t, dir))
      == AccountsTotal(accounts) + ContactsTotal(contacts) + Signed(dir, PositionEffect(t))
  {
    if t.txnType == Transfer {
      TransferConservesTotal(accounts, owner, t, dir);
    } else {
      var src := t.accountId.value;
      var a1 := ApplyToAccounts(accounts, owner, t, dir);
      SumOfUpdate(accounts, src, a1[src], Everything(), BalanceOf);
      assert accounts[src := a1[src]] == a1;
      if IsDebtRelated(t) {
        var k := t.contactId.value;
        var c1 := ApplyToContacts(contacts, owner, t, dir);
        SumOfUpdate(contacts, k, c1[k], Everything(), ContactBalance);
        assert contacts[k := c1[k]] == c1;
      }
    }
  }

  // ---------------------------------------------------------------------
  // The ledger: balances as the sum of the live rows' effects
  // ---------------------------------------------------------------------

  function AccountDeltaOn(j: Id): Txn -> int {
    t => AccountDelta(t, j)
  }

  function ContactDeltaOn(k: Id): Txn -> int {
    t => ContactDelta(t, k)
  }

  /** The sum of the effects on account `j` of every row not soft-deleted. */
  function AccountLedger(txns: seq<Txn>, j: Id): int {
    SumOf(txns, Live, AccountDeltaOn(j))
  }

  /** The sum of the effects on contact `k` of every row not soft-deleted. */
  function ContactLedger(txns: seq<Txn>, k: Id): int {
    SumOf(txns, Live, ContactDeltaOn(k))
  }

  /** Persisting a new live row adds its delta to every ledger. */
  lemma LedgerAppend(txns: seq<Txn>, t: Txn)
    requires Live(t)
    ensures forall j :: AccountLedger(txns + [t], j) == AccountLedger(txns, j) + AccountDelta(t, j)
    ensures forall k :: ContactLedger(txns + [t], k) == ContactLedger(txns, k) + ContactDelta(t, k)
  {
    forall j ensures AccountLedger(txns + [t], j) == AccountLedger(txns, j) + AccountDelta(t, j) {
      SumOfAppend(txns, t, Live, AccountDeltaOn(j));
    }
    forall k ensures ContactLedger(txns + [t], k) == ContactLedger(txns, k) + ContactDelta(t, k) {
      SumOfAppend(txns, t, Live, ContactDeltaOn(k));
    }
  }

  /** Overwriting a live row with another live row swaps its delta in every
      ledger; a soft-deleted replacement removes the delta. */
  lemma LedgerReplace(txns: seq<Txn>, i: nat, t: Txn)
    requires i < |txns| && Live(txns[i])
    ensures forall j :: (AccountLedger(txns[i := t], j)
      == AccountLedger(txns, j) - AccountDelta(txns[i], j) + (if Live(t) then AccountDelta(t, j) else 0))
    ensures forall k :: (ContactLedger(txns[i := t], k)
      == ContactLedger(txns, k) - ContactDelta(txns[i], k) + (if Live(t) then ContactDelta(t, k) else 0))
  {
    forall j ensures AccountLedger(txns[i := t], j)
      == AccountLedger(txns, j) - AccountDelta(txns[i], j) + (if Live(t) then AccountDelta(t, j) else 0)
    {
      SumOfUpdate(txns, i, t, Live, AccountDeltaOn(j));
    }
    forall k ensures ContactLedger(txns[i := t], k)
      == ContactLedger(txns, k) - ContactDelta(txns[i], k) + (if Live(t) then ContactDelta(t, k) else 0)
    {
      SumOfUpdate(txns, i, t, Live, ContactDeltaOn(k));
    }
  }

  /** Updating row `i` in place leaves every ledger where soft-deleting the
      old row and appending the new one would leave it. */
  lemma UpdateIsDeletePlusCreate(txns: seq<Txn>, i: nat, t: Txn, j: Id, k: Id)
    requires i < |txns| && Live(txns[i]) && Live(t)
    ensures AccountLedger(txns[i := t], j) == AccountLedger(txns[i := txns[i].(deleted := true)] + [t], j)
    ensures ContactLedger(txns[i := t], k) == ContactLedger(txns[i := txns[i].(deleted := true)] + [t], k)
  {
    LedgerReplace(txns, i, t);
    LedgerReplace(txns, i, txns[i].(deleted := true));
    LedgerAppend(txns[i := txns[i].(deleted := true)], t);
  }

  // ---------------------------------------------------------------------
  // The transfer branch as written
  // ---------------------------------------------------------------------

  /** The transfer branch of `updateBalances` as written: the source and the
      destination rows are both loaded before either is saved, and each
      save writes the balance of its own copy. */
  function TransferAsWritten(accounts: seq<Account>, src: Id, dst: Id, amount: int): (r: seq<Account>)
    requires src < |accounts| && dst < |accounts|
    ensures |r| == |accounts|
    ensures r[dst].balance == accounts[dst].balance + amount
  {
    var source := accounts[src];
    var destination := accounts[dst];
    accounts[src := source.(balance := source.balance - amount)][dst := destination.(balance := destination.balance + amount)]
  }

  /** When source and destination are distinct rows, the as-written branch
      agrees with the engine. */
  lemma TransferAsWrittenAgrees(accounts: seq<Account>, owner: Id, t: Txn)
    requires AccountsResolve(accounts, owner, t) && t.txnType == Transfer
    requires t.accountId != t.toAccountId
    ensures TransferAsWritten(accounts, t.accountId.value, t.toAccountId.value, t.amount)
      == ApplyToAccounts(accounts, owner, t, Apply)
  {
    var r := TransferAsWritten(accounts, t.accountId.value, t.toAccountId.value, t.amount);
    var e := ApplyToAccounts(accounts, owner, t, Apply);
    assert forall j :: 0 <= j < |r| ==> r[j] == e[j];
  }

  /** A transfer from an account to itself, as written, credits the account
      with the amount instead of leaving it unchanged, so the total of all
      accounts grows by the amount. */
  lemma SelfTransferAsWrittenInflates(accounts: seq<Account>, src: Id, amount: int)
    requires src < |accounts|
    ensures TransferAsWritten(accounts, src, src, amount)[src].balance == accounts[src].balance + amount
    ensures AccountsTotal(TransferAsWritten(accounts, src, src, amount)) == AccountsTotal(accounts) + amount
  {
    var r := TransferAsWritten(accounts, src, src, amount);
    assert r == accounts[src := r[src]];
    SumOfUpdate(accounts, src, r[src], Everything(), BalanceOf);
  }

  /** The transfer branch of `reverseBalances` as written: again both rows
      are loaded before either is saved; the source copy gets the amount
      back and the destination copy loses it. */
  function ReverseTransferAsWritten(accounts: seq<Account>, src: Id, dst: Id, amount: int): (r: seq<Account>)
    requires src < |accounts| && dst < |accounts|
    ensures |r| == |accounts|
    ensures r[dst].balance == accounts[dst].balance - amount
  {
    var source := accounts[src];
    var destination := accounts[dst];
    accounts[src := source.(balance := source.balance + amount)][dst := destination.(balance := destination.balance - amount)]
  }

  /** When source and destination are distinct rows, the as-written reverse
      branch agrees with the engine. */
  lemma ReverseTransferAsWrittenAgrees(accounts: seq<Account>, owner: Id, t: Txn)
    requires AccountsResolve(accounts, owner, t) && t.txnType == Transfer
    requires t.accountId != t.toAccountId
    ensures ReverseTransferAsWritten(accounts, t.accountId.value, t.toAccountId.value, t.amount)
      == ApplyToAccounts(accounts, owner, t, Reverse)
  {
    var r := ReverseTransferAsWritten(accounts, t.accountId.value, t.toAccountId.value, t.amount);
    var e := ApplyToAccounts(accounts, owner, t, Reverse);
    assert forall j :: 0 <= j < |r| ==> r[j] == e[j];
  }

  /** Reversing a stored self-transfer, as written, debits the account with
      the amount instead of leaving it unchanged, so the total of all
      accounts falls by the amount. */
  lemma SelfTransferReverseAsWrittenDeflates(accounts: seq<Account>, src: Id, amount: int)
    requires src < |accounts|
    ensures ReverseTransferAsWritten(accounts, src, src, amount)[src].balance == accounts[src].balance - amount
    ensures AccountsTotal(ReverseTransferAsWritten(accounts, src, src, amount)) == AccountsTotal(accounts) - amount
  {
    var r := ReverseTransferAsWritten(accounts, src, src, amount);
    assert r == accounts[src := r[src]];
    SumOfUpdate(accounts, src, r[src], Everything(), BalanceOf);
  }

  /** The two as-written errors cancel: reversing a self-transfer that was
      applied as written gives back the table it was applied to. While the
      row is stored, though, the account is off by the amount. */
  lemma SelfTransferAsWrittenRoundTrip(accounts: seq<Account>, src: Id, amount: int)
    requires src < |accounts|
    ensures ReverseTransferAsWritten(TransferAsWritten(accounts, src, src, amount), src, src, amount) == accounts
  {
    var r := ReverseTransferAsWritten(TransferAsWritten(accounts, src, src, amount), src, src, amount);
    assert forall j :: 0 <= j < |r| ==> r[j] == accounts[j];
  }
}
