/** The budget row (app/Models/Budget.php): how much of a category's budget
    has been spent over the budget's window, and the figures derived from it. */
module Budgets {
  import opened Common
  import opened Transactions
  import opened Categories

  /** A budgets row; `amount` is integer cents, and a soft-deleted row
      has `deleted` set. The stored `period` label plays no part in the
      figures and is omitted. */
  datatype Budget = Budget(
    owner: Id,
    categoryId: Id,
    amount: int,
    startDate: Date,
    endDate: Option<Date>,
    isActive: bool,
    includeSubcategories: bool,
    deleted: bool)

  /** The window of `getSpentAmount`: from the start date to the end date,
      both days included, or up to now when there is no end date. */
  predicate InWindow(b: Budget, d: Date, now: Moment) {
    DateLe(b.startDate, d)
    && (if b.endDate.Some? then DateLe(d, b.endDate.value) else AtOrBefore(d, now))
  }

  /** The categories whose expenses count against the budget: its own, plus
      (with subcategories, when the user's category exists) the direct
      children of that category. */
  function CategoryIds(b: Budget, categories: seq<Category>): (ids: seq<Id>)
    ensures |ids| > 0 && ids[0] == b.categoryId
    ensures !b.includeSubcategories ==> ids == [b.categoryId]
    ensures forall i :: 1 <= i < |ids| ==>
      ids[i] < |categories| && CategoryVisible(categories[ids[i]], b.owner) && categories[ids[i]].parentId == Some(b.categoryId)
    ensures b.includeSubcategories && b.categoryId < |categories| && CategoryVisible(categories[b.categoryId], b.owner) ==>
      forall c: nat :: c < |categories| && CategoryVisible(categories[c], b.owner) && categories[c].parentId == Some(b.categoryId) ==> c in ids
  {
    if b.includeSubcategories && b.categoryId < |categories| && CategoryVisible(categories[b.categoryId], b.owner) then
      var children := ChildIds(categories, b.owner, b.categoryId);
      assert forall i :: 0 <= i < |children| ==> children[i] in children;
      [b.categoryId] + children
    else [b.categoryId]
  }

  function AmountOf(t: Txn): int { t.amount }

  /** The owner's live expense rows in the window whose category is in `ids`. */
  function SpentFilter(b: Budget, ids: seq<Id>, now: Moment): Txn -> bool {
    (t: Txn) => t.owner == b.owner && Live(t) && t.txnType == Expense && InWindow(b, t.date, now)
      && t.categoryId.Some? && t.categoryId.value in ids
  }

  function SpentOn(b: Budget, ids: seq<Id>, txns: seq<Txn>, now: Moment): int {
    SumOf(txns, SpentFilter(b, ids, now), AmountOf)
  }

  /** With amounts that are not negative, the spending on a set of
      categories that includes the budget's own is at least the spending on
      the budget's own, and that is not negative. */
  lemma SpentCoversOwnCategory(b: Budget, ids: seq<Id>, txns: seq<Txn>, now: Moment)
    requires b.categoryId in ids
    ensures (forall t :: t in txns ==> t.amount >= 0) ==>
      0 <= SpentOn(b, [b.categoryId], txns, now) <= SpentOn(b, ids, txns, now)
  {
    if forall t :: t in txns ==> t.amount >= 0 {
      var own := SpentFilter(b, [b.categoryId], now);
      var others := (t: Txn) => SpentFilter(b, ids, now)(t) && !own(t);
      SumOfSplit(txns, own, others, SpentFilter(b, ids, now), AmountOf);
      SumOfNonNegative(txns, own, AmountOf);
      SumOfNonNegative(txns, others, AmountOf);
    }
  }

  /** `getSpentAmount`: the amount of the owner's live expense rows in the
      window whose category is the budget's or, with subcategories, one of
      its children. With amounts that are not negative (validation asks for
      at least one cent) it is at least the spending on the budget's own
      category, and not negative. */
  function SpentAmount(b: Budget, categories: seq<Category>, txns: seq<Txn>, now: Moment): (r: int)
    ensures (forall t :: t in txns ==> t.amount >= 0) ==> 0 <= SpentOn(b, [b.categoryId], txns, now) <= r
    ensures !b.includeSubcategories ==> r == SpentOn(b, [b.categoryId], txns, now)
  {
    var ids := CategoryIds(b, categories);
    SpentCoversOwnCategory(b, ids, txns, now);
    SpentOn(b, ids, txns, now)
  }

  /** The owner's live expense rows in the window of exactly the budget's category. */
  function ExactCategoryFilter(b: Budget, now: Moment): Txn -> bool {
    (t: Txn) => t.owner == b.owner && Live(t) && t.txnType == Expense && InWindow(b, t.date, now) && t.categoryId == Some(b.categoryId)
  }

  /** Without subcategories only rows of exactly the budget's category count. */
  lemma SpentWithoutSubcategories(b: Budget, categories: seq<Category>, txns: seq<Txn>, now: Moment)
    requires !b.includeSubcategories
    ensures SpentAmount(b, categories, txns, now) == SumOf(txns, ExactCategoryFilter(b, now), AmountOf)
  {
    var ids := CategoryIds(b, categories);
    SumOfCongruent(txns, SpentFilter(b, ids, now), AmountOf, ExactCategoryFilter(b, now), AmountOf);
  }

  /** The sum, over the ids, of the spending on each id alone. */
  function SpentEach(b: Budget, ids: seq<Id>, txns: seq<Txn>, now: Moment): int {
    if ids == [] then 0 else SpentOn(b, [ids[0]], txns, now) + SpentEach(b, ids[1..], txns, now)
  }

  /** Over distinct ids, spending on the set is the sum of the spending on
      each id. */
  lemma {:induction false} SpentOnDistinct(b: Budget, ids: seq<Id>, txns: seq<Txn>, now: Moment)
    requires Distinct(ids)
    ensures SpentOn(b, ids, txns, now) == SpentEach(b, ids, txns, now)
  {
    if ids == [] {
      SumOfSplit(txns, SpentFilter(b, ids, now), SpentFilter(b, ids, now), SpentFilter(b, ids, now), AmountOf);
    } else {
      var rest := ids[1..];
      assert Distinct(rest) by {
        assert forall i, j :: 0 <= i < j < |rest| ==> rest[i] == ids[i + 1] && rest[j] == ids[j + 1];
      }
      SpentOnDistinct(b, rest, txns, now);
      assert ids == [ids[0]] + rest && ids[0] !in rest;
      SumOfSplit(txns, SpentFilter(b, [ids[0]], now), SpentFilter(b, rest, now), SpentFilter(b, ids, now), AmountOf);
    }
  }

  /** With subcategories, and a category that is not its own child, the
      spending is the parent's own plus each child's. */
  lemma SpentWithSubcategories(b: Budget, categories: seq<Category>, txns: seq<Txn>, now: Moment)
    requires b.includeSubcategories && b.categoryId < |categories| && CategoryVisible(categories[b.categoryId], b.owner)
    requires categories[b.categoryId].parentId != Some(b.categoryId)
    ensures SpentAmount(b, categories, txns, now)
      == SpentOn(b, [b.categoryId], txns, now) + SpentEach(b, ChildIds(categories, b.owner, b.categoryId), txns, now)
  {
    var children := ChildIds(categories, b.owner, b.categoryId);
    var ids := CategoryIds(b, categories);
    assert ids == [b.categoryId] + children;
    assert b.categoryId !in children;
    assert Distinct(ids) by {
      assert forall i :: 0 <= i < |children| ==> children[i] in children;
    }
    SpentOnDistinct(b, ids, txns, now);
    assert ids[1..] == children;
  }

  /** `getRemainingAmount`. */
  function RemainingAmount(b: Budget, categories: seq<Category>, txns: seq<Txn>, now: Moment): (r: int)
    ensures r + SpentAmount(b, categories, txns, now) == b.amount
  {
    b.amount - SpentAmount(b, categories, txns, now)
  }

  /** `isOverBudget`: spent more than the amount, that is, nothing remains. */
  function IsOverBudget(b: Budget, categories: seq<Category>, txns: seq<Txn>, now: Moment): (r: bool)
    ensures r <==> RemainingAmount(b, categories, txns, now) < 0
  {
    SpentAmount(b, categories, txns, now) > b.amount
  }

  /** An exact fraction `num / den`, with `den > 0`. */
  datatype Ratio = Ratio(num: int, den: int)

  /** `getPercentageUsed`, kept exact: 0 for a zero amount, else
      spent * 100 / amount with the sign carried by the numerator. */
  function PercentageUsed(b: Budget, categories: seq<Category>, txns: seq<Txn>, now: Moment): (r: Ratio)
    ensures r.den > 0
    ensures b.amount == 0 ==> r.num == 0
    ensures b.amount != 0 ==> r.den == Abs(b.amount)
    ensures b.amount != 0 ==> r.num * b.amount == SpentAmount(b, categories, txns, now) * 100 * r.den
  {
    var spent := SpentAmount(b, categories, txns, now);
    if b.amount == 0 then Ratio(0, 1)
    else if b.amount > 0 then Ratio(spent * 100, b.amount)
    else Ratio(-spent * 100, -b.amount)
  }

  /** For a positive amount, more than 100 percent used is exactly being
      over budget. */
  lemma OverHundredPercentIffOverBudget(b: Budget, categories: seq<Category>, txns: seq<Txn>, now: Moment)
    requires b.amount > 0
    ensures var p := PercentageUsed(b, categories, txns, now);
      p.num > 100 * p.den <==> IsOverBudget(b, categories, txns, now)
  {
  }

  /** `scopeCurrent`: started on or before today, and no end date or an end
      date on or after today. The query also runs under the owner scope and
      the soft-delete scope. */
  predicate Current(b: Budget, today: Date) {
    DateLe(b.startDate, today) && (b.endDate.None? || DateLe(today, b.endDate.value))
  }

  function ScopeCurrent(budgets: seq<Budget>, owner: Id, today: Date): (ids: seq<Id>)
    ensures forall i: nat :: i in ids <==>
      i < |budgets| && budgets[i].owner == owner && !budgets[i].deleted && Current(budgets[i], today)
  {
    Where(budgets, (b: Budget) => b.owner == owner && !b.deleted && Current(b, today))
  }

  /** A current budget's spending window contains today. */
  lemma CurrentWindowContainsToday(b: Budget, now: Moment)
    requires Current(b, now.date)
    ensures InWindow(b, now.date, now)
  {
  }
}
