/** The account row (app/Models/Account.php): balance arithmetic, credit
    limits, the query scopes and the two transaction relations. */
module Accounts {
  import opened Common
  import opened Transactions

  datatype AccountType = Asset | Liability
  datatype Subtype = Cash | BankAccount | DigitalWallet | CreditCard | Loan

  function AccountTypeName(t: AccountType): string {
    match t
    case Asset => "asset"
    case Liability => "liability"
  }

  function SubtypeName(s: Subtype): string {
    match s
    case Cash => "cash"
    case BankAccount => "bank_account"
    case DigitalWallet => "digital_wallet"
    case CreditCard => "credit_card"
    case Loan => "loan"
  }

  /** An accounts row; `balance` and `creditLimit` are integer cents. */
  datatype Account = Account(
    owner: Id,
    accountType: AccountType,
    subtype: Subtype,
    balance: int,
    creditLimit: Option<int>,
    isActive: bool,
    includeInTotal: bool,
    deleted: bool)

  predicate AccountVisible(a: Account, owner: Id) {
    a.owner == owner && !a.deleted
  }

  function BalanceOf(a: Account): int { a.balance }

  /** `Account::find(id)` under the owner scope: the id of the row when the
      reference is present and names a live row of the owner, else nothing. */
  function FindAccount(accounts: seq<Account>, owner: Id, ref: Option<Id>): (r: Option<Id>)
    ensures r.Some? <==> ref.Some? && ref.value < |accounts| && AccountVisible(accounts[ref.value], owner)
    ensures r.Some? ==> r == ref
  {
    if ref.Some? && ref.value < |accounts| && AccountVisible(accounts[ref.value], owner) then ref else None
  }

  /** The table after `updateBalance(x)` on row `id`: that row's balance
      grows by `x`, and nothing else in the table changes. */
  function CreditAccount(accounts: seq<Account>, id: Id, x: int): (r: seq<Account>)
    requires id < |accounts|
    ensures |r| == |accounts|
    ensures r[id].balance == accounts[id].balance + x
    ensures r[id] == accounts[id].(balance := r[id].balance)
    ensures forall j :: 0 <= j < |r| && j != id ==> r[j] == accounts[j]
  {
    accounts[id := accounts[id].(balance := accounts[id].balance + x)]
  }

  /** Credit still available on the account: 0 without a limit. */
  function AvailableCredit(a: Account): (r: int)
    ensures a.creditLimit.None? ==> r == 0
    ensures a.creditLimit.Some? ==> r + Abs(a.balance) == a.creditLimit.value
  {
    if a.creditLimit.None? then 0 else a.creditLimit.value - Abs(a.balance)
  }

  /** Over the limit exactly when a limit is set and no credit is left. */
  function IsOverLimit(a: Account): (r: bool)
    ensures r <==> a.creditLimit.Some? && AvailableCredit(a) < 0
    ensures a.creditLimit.None? ==> !r
  {
    if a.creditLimit.None? then false else Abs(a.balance) > a.creditLimit.value
  }

  // ---------------------------------------------------------------------
  // Scopes (the owner's live rows that each keeps)
  // ---------------------------------------------------------------------

  function ActiveFilter(owner: Id): Account -> bool {
    a => AccountVisible(a, owner) && a.isActive
  }

  function TypeFilter(owner: Id, t: AccountType): Account -> bool {
    a => AccountVisible(a, owner) && a.accountType == t
  }

  function ScopeActive(accounts: seq<Account>, owner: Id): (ids: seq<Id>)
    ensures forall i: nat :: i in ids <==> i < |accounts| && AccountVisible(accounts[i], owner) && accounts[i].isActive
  {
    Where(accounts, ActiveFilter(owner))
  }

  function ScopeAsset(accounts: seq<Account>, owner: Id): (ids: seq<Id>)
    ensures forall i: nat :: i in ids <==> i < |accounts| && AccountVisible(accounts[i], owner) && accounts[i].accountType == Asset
  {
    Where(accounts, TypeFilter(owner, Asset))
  }

  function ScopeLiability(accounts: seq<Account>, owner: Id): (ids: seq<Id>)
    ensures forall i: nat :: i in ids <==> i < |accounts| && AccountVisible(accounts[i], owner) && accounts[i].accountType == Liability
  {
    Where(accounts, TypeFilter(owner, Liability))
  }

  function ScopeOfSubtype(accounts: seq<Account>, owner: Id, subtype: string): (ids: seq<Id>)
    ensures forall i: nat :: i in ids <==> i < |accounts| && AccountVisible(accounts[i], owner) && SubtypeName(accounts[i].subtype) == subtype
  {
    Where(accounts, a => AccountVisible(a, owner) && SubtypeName(a.subtype) == subtype)
  }

  /** The asset and liability scopes split the owner's accounts in two. */
  lemma AssetLiabilityPartition(accounts: seq<Account>, owner: Id)
    ensures forall i: nat :: !(i in ScopeAsset(accounts, owner) && i in ScopeLiability(accounts, owner))
    ensures forall i: nat :: i < |accounts| && AccountVisible(accounts[i], owner) ==>
      i in ScopeAsset(accounts, owner) || i in ScopeLiability(accounts, owner)
  {
  }

  // ---------------------------------------------------------------------
  // Relations to the transactions table
  // ---------------------------------------------------------------------

  /** `transactions()`: the rows whose source account is `id`. */
  function TransactionsOf(txns: seq<Txn>, owner: Id, id: Id): (ids: seq<Id>)
    ensures forall i: nat :: i in ids <==> i < |txns| && TxnVisible(txns[i], owner) && txns[i].accountId == Some(id)
  {
    Where(txns, t => TxnVisible(t, owner) && t.accountId == Some(id))
  }

  /** `transfersIn()`: the rows whose destination account is `id`. */
  function TransfersIn(txns: seq<Txn>, owner: Id, id: Id): (ids: seq<Id>)
    ensures forall i: nat :: i in ids <==> i < |txns| && TxnVisible(txns[i], owner) && txns[i].toAccountId == Some(id)
  {
    Where(txns, t => TxnVisible(t, owner) && t.toAccountId == Some(id))
  }

  /** An incoming transfer from another account belongs to `transfersIn()`
      and not to `transactions()`. */
  lemma IncomingTransferNotInTransactions(txns: seq<Txn>, owner: Id, id: Id, i: nat)
    requires i < |txns| && TxnVisible(txns[i], owner)
    requires txns[i].toAccountId == Some(id) && txns[i].accountId != Some(id)
    ensures i in TransfersIn(txns, owner, id) && i !in TransactionsOf(txns, owner, id)
  {
  }
}
