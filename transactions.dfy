/** The transaction row (app/Models/Transaction.php): its seven types, the
    type predicates, and the query scopes over the transactions table. */
module Transactions {
  import opened Common

  /** The `type` enum of the transactions table. */
  datatype TxnType = Income | Expense | Transfer | Lent | Borrowed | RepaymentIn | RepaymentOut

  /** The value stored in the `type` column. */
  function TypeName(t: TxnType): string {
    match t
    case Income => "income"
    case Expense => "expense"
    case Transfer => "transfer"
    case Lent => "lent"
    case Borrowed => "borrowed"
    case RepaymentIn => "repayment_in"
    case RepaymentOut => "repayment_out"
  }

  /** Reads a `type` value; anything outside the enum is rejected. */
  function ParseType(s: string): (r: Option<TxnType>)
    ensures r.Some? ==> TypeName(r.value) == s
    ensures r.None? ==> forall t :: TypeName(t) != s
  {
    if s == "income" then Some(Income)
    else if s == "expense" then Some(Expense)
    else if s == "transfer" then Some(Transfer)
    else if s == "lent" then Some(Lent)
    else if s == "borrowed" then Some(Borrowed)
    else if s == "repayment_in" then Some(RepaymentIn)
    else if s == "repayment_out" then Some(RepaymentOut)
    else None
  }

  lemma ParseTypeName(t: TxnType)
    ensures ParseType(TypeName(t)) == Some(t)
  {
  }

  /** A transactions row. Money is integer cents (the column is decimal(15,2)).
      The free-text columns (title, description, reference number, metadata)
      play no part in the ledger and are omitted. */
  datatype Txn = Txn(
    owner: Id,
    txnType: TxnType,
    amount: int,
    accountId: Option<Id>,
    toAccountId: Option<Id>,
    categoryId: Option<Id>,
    contactId: Option<Id>,
    date: Date,
    deleted: bool)

  /** A row that the owner-scoped, soft-delete-aware queries return. */
  predicate TxnVisible(t: Txn, owner: Id) {
    t.owner == owner && !t.deleted
  }

  /** A row that has not been soft-deleted. */
  predicate Live(t: Txn) {
    !t.deleted
  }

  predicate IsIncome(t: Txn) { t.txnType == Income }
  predicate IsExpense(t: Txn) { t.txnType == Expense }
  predicate IsTransfer(t: Txn) { t.txnType == Transfer }
  predicate IsDebtRelated(t: Txn) {
    t.txnType in {Lent, Borrowed, RepaymentIn, RepaymentOut}
  }

  /** Every row is exactly one of income, expense, transfer or debt-related. */
  lemma TypePredicatesPartition(t: Txn)
    ensures IsIncome(t) || IsExpense(t) || IsTransfer(t) || IsDebtRelated(t)
    ensures !(IsIncome(t) && IsExpense(t)) && !(IsIncome(t) && IsTransfer(t))
    ensures !(IsIncome(t) && IsDebtRelated(t)) && !(IsExpense(t) && IsTransfer(t))
    ensures !(IsExpense(t) && IsDebtRelated(t)) && !(IsTransfer(t) && IsDebtRelated(t))
  {
  }

  // ---------------------------------------------------------------------
  // Scopes. Each returns the ids of the owner's live rows it keeps.
  // ---------------------------------------------------------------------

  function OfTypeFilter(owner: Id, typeName: string): Txn -> bool {
    t => TxnVisible(t, owner) && TypeName(t.txnType) == typeName
  }

  function ScopeOfType(rows: seq<Txn>, owner: Id, typeName: string): (ids: seq<Id>)
    ensures forall i: nat :: i in ids ==> i < |rows| && TxnVisible(rows[i], owner)
    ensures ParseType(typeName).None? ==> ids == []
    ensures ParseType(typeName).Some? ==>
      forall i: nat :: i in ids <==> i < |rows| && TxnVisible(rows[i], owner) && rows[i].txnType == ParseType(typeName).value
  {
    var ids := Where(rows, OfTypeFilter(owner, typeName));
    assert |ids| > 0 ==> ids[0] in ids;
    ids
  }

  function DateRangeFilter(owner: Id, start: Date, end: Date): Txn -> bool {
    t => TxnVisible(t, owner) && DateLe(start, t.date) && DateLe(t.date, end)
  }

  /** Rows dated from `start` to `end`, both days included. */
  function ScopeDateRange(rows: seq<Txn>, owner: Id, start: Date, end: Date): (ids: seq<Id>)
    ensures forall i: nat :: i in ids <==>
      i < |rows| && TxnVisible(rows[i], owner) && DateLe(start, rows[i].date) && DateLe(rows[i].date, end)
  {
    Where(rows, DateRangeFilter(owner, start, end))
  }

  predicate InMonthOf(d: Date, now: Moment) {
    d.month == now.date.month && d.year == now.date.year
  }

  predicate InYearOf(d: Date, now: Moment) {
    d.year == now.date.year
  }

  function ThisMonthFilter(owner: Id, now: Moment): Txn -> bool {
    t => TxnVisible(t, owner) && InMonthOf(t.date, now)
  }

  function ThisYearFilter(owner: Id, now: Moment): Txn -> bool {
    t => TxnVisible(t, owner) && InYearOf(t.date, now)
  }

  function ScopeThisMonth(rows: seq<Txn>, owner: Id, now: Moment): (ids: seq<Id>)
    ensures forall i: nat :: i in ids <==>
      i < |rows| && TxnVisible(rows[i], owner) && rows[i].date.month == now.date.month && rows[i].date.year == now.date.year
  {
    Where(rows, ThisMonthFilter(owner, now))
  }

  function ScopeThisYear(rows: seq<Txn>, owner: Id, now: Moment): (ids: seq<Id>)
    ensures forall i: nat :: i in ids <==> i < |rows| && TxnVisible(rows[i], owner) && rows[i].date.year == now.date.year
  {
    Where(rows, ThisYearFilter(owner, now))
  }

  /** Every row of this month is also a row of this year. */
  lemma ThisMonthWithinThisYear(rows: seq<Txn>, owner: Id, now: Moment)
    ensures forall i: nat :: i in ScopeThisMonth(rows, owner, now) ==> i in ScopeThisYear(rows, owner, now)
  {
  }

  /** `scopeRecent(days)`: rows dated at or after the timestamp `since`,
      which stands for `now()` minus `days` days. */
  function ScopeRecent(rows: seq<Txn>, owner: Id, since: Moment): (ids: seq<Id>)
    ensures forall i: nat :: i in ids ==> i < |rows| && TxnVisible(rows[i], owner)
    ensures forall i: nat :: i < |rows| && TxnVisible(rows[i], owner) && DateLe(since.date, rows[i].date) && rows[i].date != since.date ==> i in ids
    ensures forall i: nat :: i < |rows| && !DateLe(since.date, rows[i].date) ==> i !in ids
    ensures forall i: nat :: i < |rows| && TxnVisible(rows[i], owner) && rows[i].date == since.date ==> (i in ids <==> since.second == 0)
  {
    Where(rows, t => TxnVisible(t, owner) && AtOrAfter(t.date, since))
  }
}
