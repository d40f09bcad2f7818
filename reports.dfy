/** The two read-only reports of app/Services/TransactionService.php:
    `getStatistics` (per-type totals over a period) and
    `getSpendingByCategory` (expenses grouped by category, largest first). */
module Reports {
  import opened Common
  import opened Transactions
  import opened Categories

  /** The clock readings the reports use: `now()`, and the first and the
      last day of the current week. */
  datatype Clock = Clock(now: Moment, weekStart: Date, weekEnd: Date)

  function AmountOf(t: Txn): int { t.amount }

  // ---------------------------------------------------------------------
  // getStatistics
  // ---------------------------------------------------------------------

  /** The date filter of `getStatistics`; any other period filters nothing. */
  predicate InStatisticsPeriod(d: Date, period: string, clock: Clock) {
    if period == "today" then d == clock.now.date
    else if period == "week" then DateLe(clock.weekStart, d) && DateLe(d, clock.weekEnd)
    else if period == "month" then InMonthOf(d, clock.now)
    else if period == "year" then InYearOf(d, clock.now)
    else true
  }

  function InPeriod(owner: Id, period: string, clock: Clock): Txn -> bool {
    t => TxnVisible(t, owner) && InStatisticsPeriod(t.date, period, clock)
  }

  function OfTypeInPeriod(owner: Id, period: string, clock: Clock, ty: TxnType): Txn -> bool {
    t => InPeriod(owner, period, clock)(t) && t.txnType == ty
  }

  function DebtInPeriod(owner: Id, period: string, clock: Clock): Txn -> bool {
    t => InPeriod(owner, period, clock)(t) && IsDebtRelated(t)
  }

  datatype Statistics = Statistics(
    totalIncome: int,
    totalExpense: int,
    netSavings: int,
    totalTransfers: int,
    period: string)

  function TypeTotal(txns: seq<Txn>, owner: Id, period: string, clock: Clock, ty: TxnType): int {
    SumOf(txns, OfTypeInPeriod(owner, period, clock, ty), AmountOf)
  }

  /** `getStatistics`: the income, expense and transfer totals of the
      user's rows in the period, and the net savings. */
  function GetStatistics(txns: seq<Txn>, owner: Id, period: string, clock: Clock): (s: Statistics)
    ensures s.netSavings == s.totalIncome - s.totalExpense
    ensures s.period == period
  {
    var income := TypeTotal(txns, owner, period, clock, Income);
    var expense := TypeTotal(txns, owner, period, clock, Expense);
    Statistics(income, expense, income - expense, TypeTotal(txns, owner, period, clock, Transfer), period)
  }

  /** Each total sums only rows of its own type: a new row moves the total
      of its type by its amount (when the user owns it and it falls in the
      period) and leaves the other totals alone. */
  lemma StatisticsAppend(txns: seq<Txn>, owner: Id, period: string, clock: Clock, t: Txn)
    ensures var before := GetStatistics(txns, owner, period, clock);
      var after := GetStatistics(txns + [t], owner, period, clock);
      var counted := InPeriod(owner, period, clock)(t);
      after.totalIncome == before.totalIncome + (if counted && t.txnType == Income then t.amount else 0)
      && after.totalExpense == before.totalExpense + (if counted && t.txnType == Expense then t.amount else 0)
      && after.totalTransfers == before.totalTransfers + (if counted && t.txnType == Transfer then t.amount else 0)
  {
    SumOfAppend(txns, t, OfTypeInPeriod(owner, period, clock, Income), AmountOf);
    SumOfAppend(txns, t, OfTypeInPeriod(owner, period, clock, Expense), AmountOf);
    SumOfAppend(txns, t, OfTypeInPeriod(owner, period, clock, Transfer), AmountOf);
  }

  function IncomeOrExpenseInPeriod(owner: Id, period: string, clock: Clock): Txn -> bool {
    t => InPeriod(owner, period, clock)(t) && (t.txnType == Income || t.txnType == Expense)
  }

  function NotDebtInPeriod(owner: Id, period: string, clock: Clock): Txn -> bool {
    t => InPeriod(owner, period, clock)(t) && !IsDebtRelated(t)
  }

  /** The three totals and the debt rows' total add up to the total of all
      the user's rows in the period. */
  lemma StatisticsPartition(txns: seq<Txn>, owner: Id, period: string, clock: Clock)
    ensures var s := GetStatistics(txns, owner, period, clock);
      s.totalIncome + s.totalExpense + s.totalTransfers + SumOf(txns, DebtInPeriod(owner, period, clock), AmountOf)
      == SumOf(txns, InPeriod(owner, period, clock), AmountOf)
  {
    SumOfSplit(txns, OfTypeInPeriod(owner, period, clock, Income), OfTypeInPeriod(owner, period, clock, Expense),
               IncomeOrExpenseInPeriod(owner, period, clock), AmountOf);
    forall x | x in txns
      ensures NotDebtInPeriod(owner, period, clock)(x)
        == (IncomeOrExpenseInPeriod(owner, period, clock)(x) || OfTypeInPeriod(owner, period, clock, Transfer)(x))
    {
      TypePredicatesPartition(x);
    }
    SumOfSplit(txns, IncomeOrExpenseInPeriod(owner, period, clock), OfTypeInPeriod(owner, period, clock, Transfer),
               NotDebtInPeriod(owner, period, clock), AmountOf);
    SumOfSplit(txns, NotDebtInPeriod(owner, period, clock), DebtInPeriod(owner, period, clock),
               InPeriod(owner, period, clock), AmountOf);
  }

  // ---------------------------------------------------------------------
  // getSpendingByCategory
  // ---------------------------------------------------------------------

  /** The date filter of `getSpendingByCategory`: only "month" and "year"
      filter; every other period, "today" and "week" included, keeps all
      rows. */
  predicate InSpendingPeriod(d: Date, period: string, now: Moment) {
    if period == "month" then InMonthOf(d, now)
    else if period == "year" then InYearOf(d, now)
    else true
  }

  function Spending(owner: Id, period: string, now: Moment): Txn -> bool {
    t => TxnVisible(t, owner) && t.txnType == Expense && InSpendingPeriod(t.date, period, now)
  }

  /** The distinct category ids of the rows, in order of first occurrence
      (the keys of `groupBy('category_id')`). */
  function CategoryKeys(rows: seq<Txn>): (keys: seq<Option<Id>>)
    ensures Distinct(keys)
    ensures forall t :: t in rows ==> t.categoryId in keys
    ensures forall c :: c in keys ==> exists t :: t in rows && t.categoryId == c
  {
    if |rows| == 0 then []
    else
      var front := rows[..|rows| - 1];
      var last := rows[|rows| - 1];
      assert rows == front + [last];
      var keys := CategoryKeys(front);
      if last.categoryId in keys then keys else keys + [last.categoryId]
  }

  function HasCategory(c: Option<Id>): Txn -> bool {
    (t: Txn) => t.categoryId == c
  }

  function CategoryIn(keys: seq<Option<Id>>): Txn -> bool {
    (t: Txn) => t.categoryId in keys
  }

  /** The label of a group: the name of the user's live category, else
      "Uncategorized". */
  function Label(categories: seq<Category>, owner: Id, c: Option<Id>): string {
    if c.Some? && c.value < |categories| && CategoryVisible(categories[c.value], owner) then categories[c.value].name
    else "Uncategorized"
  }

  /** One entry of the report; `categoryId` is the grouping key. */
  datatype SpendingGroup = SpendingGroup(categoryId: Option<Id>, category: string, total: int, count: nat)

  function Group(rows: seq<Txn>, categories: seq<Category>, owner: Id, c: Option<Id>): SpendingGroup {
    SpendingGroup(c, Label(categories, owner, c), SumOf(rows, HasCategory(c), AmountOf), Count(rows, HasCategory(c)))
  }

  function Groups(rows: seq<Txn>, categories: seq<Category>, owner: Id, keys: seq<Option<Id>>): (gs: seq<SpendingGroup>)
    ensures |gs| == |keys|
    ensures forall i :: 0 <= i < |gs| ==> gs[i] == Group(rows, categories, owner, keys[i])
  {
    if keys == [] then [] else [Group(rows, categories, owner, keys[0])] + Groups(rows, categories, owner, keys[1..])
  }

  function NegatedTotal(g: SpendingGroup): int { -g.total }

  function TotalOf(g: SpendingGroup): int { g.total }

  function CountOf(g: SpendingGroup): int { g.count }

  function SpendingRows(txns: seq<Txn>, owner: Id, period: string, now: Moment): (rows: seq<Txn>)
    ensures forall t :: t in rows <==> t in txns && Spending(owner, period, now)(t)
    ensures |rows| == Count(txns, Spending(owner, period, now))
  {
    Filter(txns, Spending(owner, period, now))
  }

  /** `getSpendingByCategory`: one entry per category id among the user's
      expense rows in the period, with the label, total and count of that
      category's rows, sorted by total, largest first. */
  function GetSpendingByCategory(txns: seq<Txn>, categories: seq<Category>, owner: Id, period: string, now: Moment)
    : (r: seq<SpendingGroup>)
    ensures forall i, j :: 0 <= i < j < |r| ==> r[i].total >= r[j].total
    ensures forall i, j :: 0 <= i < j < |r| ==> r[i].categoryId != r[j].categoryId
    ensures forall t :: t in txns && Spending(owner, period, now)(t) ==>
      exists i :: 0 <= i < |r| && r[i].categoryId == t.categoryId
    ensures forall i :: 0 <= i < |r| ==>
      r[i] == Group(SpendingRows(txns, owner, period, now), categories, owner, r[i].categoryId) && r[i].count > 0
  {
    var rows := SpendingRows(txns, owner, period, now);
    var keys := CategoryKeys(rows);
    var r := SortBy(Groups(rows, categories, owner, keys), NegatedTotal);
    SortedGroupsDistinct(rows, categories, owner, keys, r);
    SortedGroupsCover(rows, categories, owner, keys, r);
    SortedGroupsNonEmpty(rows, categories, owner, keys, r);
    r
  }

  /** A rearrangement of the groups over distinct keys keeps one group per
      category id. */
  lemma SortedGroupsDistinct(rows: seq<Txn>, categories: seq<Category>, owner: Id, keys: seq<Option<Id>>, r: seq<SpendingGroup>)
    requires Distinct(keys)
    requires multiset(r) == multiset(Groups(rows, categories, owner, keys))
    ensures forall i, j :: 0 <= i < j < |r| ==> r[i].categoryId != r[j].categoryId
  {
    var groups := Groups(rows, categories, owner, keys);
    DistinctPermutation(groups, r);
    forall i, j | 0 <= i < j < |r| ensures r[i].categoryId != r[j].categoryId {
      assert r[i] in multiset(groups) && r[j] in multiset(groups);
      var a :| 0 <= a < |groups| && groups[a] == r[i];
      var b :| 0 <= b < |groups| && groups[b] == r[j];
    }
  }

  /** A rearrangement of the groups has a group for every row whose key is
      among the keys. */
  lemma SortedGroupsCover(rows: seq<Txn>, categories: seq<Category>, owner: Id, keys: seq<Option<Id>>, r: seq<SpendingGroup>)
    requires forall t :: t in rows ==> t.categoryId in keys
    requires multiset(r) == multiset(Groups(rows, categories, owner, keys))
    ensures forall t :: t in rows ==> exists i :: 0 <= i < |r| && r[i].categoryId == t.categoryId
  {
    var groups := Groups(rows, categories, owner, keys);
    forall t | t in rows ensures exists i :: 0 <= i < |r| && r[i].categoryId == t.categoryId {
      var a :| 0 <= a < |keys| && keys[a] == t.categoryId;
      assert groups[a] in multiset(r);
      var i :| 0 <= i < |r| && r[i] == groups[a];
    }
  }

  /** In a rearrangement of the groups, every group is the group of its own
      key and holds at least one row. */
  lemma SortedGroupsNonEmpty(rows: seq<Txn>, categories: seq<Category>, owner: Id, keys: seq<Option<Id>>, r: seq<SpendingGroup>)
    requires forall c :: c in keys ==> exists t :: t in rows && t.categoryId == c
    requires multiset(r) == multiset(Groups(rows, categories, owner, keys))
    ensures forall i :: 0 <= i < |r| ==> r[i] == Group(rows, categories, owner, r[i].categoryId) && r[i].count > 0
  {
    var groups := Groups(rows, categories, owner, keys);
    forall i | 0 <= i < |r| ensures r[i] == Group(rows, categories, owner, r[i].categoryId) && r[i].count > 0 {
      assert r[i] in multiset(groups);
      var a :| 0 <= a < |groups| && groups[a] == r[i];
      assert keys[a] in keys;
      var t :| t in rows && t.categoryId == keys[a];
      CountPositive(rows, HasCategory(keys[a]), t);
    }
  }

  /** Over distinct keys, the groups' counts add up to the number of rows
      whose key is among them. */
  lemma {:induction false} GroupCountsSum(rows: seq<Txn>, categories: seq<Category>, owner: Id, keys: seq<Option<Id>>)
    requires Distinct(keys)
    ensures SumOf(Groups(rows, categories, owner, keys), Everything(), CountOf) == Count(rows, CategoryIn(keys))
  {
    if keys != [] {
      var rest := keys[1..];
      assert Distinct(rest) by {
        assert forall i, j :: 0 <= i < j < |rest| ==> rest[i] == keys[i + 1] && rest[j] == keys[j + 1];
      }
      GroupCountsSum(rows, categories, owner, rest);
      assert keys == [keys[0]] + rest && keys[0] !in rest;
      CountSplit(rows, HasCategory(keys[0]), CategoryIn(rest), CategoryIn(keys));
      var groups := Groups(rows, categories, owner, keys);
      assert groups[1..] == Groups(rows, categories, owner, rest);
    } else {
      // No row's key is among no keys: split the empty filter with itself.
      CountSplit(rows, CategoryIn(keys), CategoryIn(keys), CategoryIn(keys));
    }
  }

  /** Over distinct keys, the groups' totals add up to the amount of the
      rows whose key is among them. */
  lemma {:induction false} GroupTotalsSum(rows: seq<Txn>, categories: seq<Category>, owner: Id, keys: seq<Option<Id>>)
    requires Distinct(keys)
    ensures SumOf(Groups(rows, categories, owner, keys), Everything(), TotalOf) == SumOf(rows, CategoryIn(keys), AmountOf)
  {
    if keys != [] {
      var rest := keys[1..];
      assert Distinct(rest) by {
        assert forall i, j :: 0 <= i < j < |rest| ==> rest[i] == keys[i + 1] && rest[j] == keys[j + 1];
      }
      GroupTotalsSum(rows, categories, owner, rest);
      assert keys == [keys[0]] + rest && keys[0] !in rest;
      SumOfSplit(rows, HasCategory(keys[0]), CategoryIn(rest), CategoryIn(keys), AmountOf);
      assert Groups(rows, categories, owner, keys)[1..] == Groups(rows, categories, owner, rest);
    } else {
      SumOfSplit(rows, CategoryIn(keys), CategoryIn(keys), CategoryIn(keys), AmountOf);
    }
  }

  /** Every expense row of the period is counted in exactly one group. */
  lemma SpendingCountsEveryRow(txns: seq<Txn>, categories: seq<Category>, owner: Id, period: string, now: Moment)
    ensures SumOf(GetSpendingByCategory(txns, categories, owner, period, now), Everything(), CountOf)
      == Count(txns, Spending(owner, period, now))
  {
    var rows := SpendingRows(txns, owner, period, now);
    var keys := CategoryKeys(rows);
    var groups := Groups(rows, categories, owner, keys);
    GroupCountsSum(rows, categories, owner, keys);
    CountAll(rows, CategoryIn(keys));
    SortSum(groups, NegatedTotal, Everything(), CountOf);
  }

  /** The groups' totals add up to the period's total spending. */
  lemma SpendingTotalsEveryRow(txns: seq<Txn>, categories: seq<Category>, owner: Id, period: string, now: Moment)
    ensures SumOf(GetSpendingByCategory(txns, categories, owner, period, now), Everything(), TotalOf)
      == SumOf(txns, Spending(owner, period, now), AmountOf)
  {
    var rows := SpendingRows(txns, owner, period, now);
    var keys := CategoryKeys(rows);
    var groups := Groups(rows, categories, owner, keys);
    GroupTotalsSum(rows, categories, owner, keys);
    SumOfCongruent(rows, CategoryIn(keys), AmountOf, Everything(), AmountOf);
    SumOfFilter(txns, Spending(owner, period, now), AmountOf);
    SortSum(groups, NegatedTotal, Everything(), TotalOf);
  }
}
