/** The category row (app/Models/Category.php): one level of parent/child
    nesting, and the scopes the category listing is composed from. */
module Categories {
  import opened Common
  import opened Transactions

  datatype CategoryType = IncomeCategory | ExpenseCategory

  function CategoryTypeName(t: CategoryType): string {
    match t
    case IncomeCategory => "income"
    case ExpenseCategory => "expense"
  }

  datatype Category = Category(
    owner: Id,
    parentId: Option<Id>,
    name: string,
    categoryType: CategoryType,
    isActive: bool,
    order: int,
    deleted: bool)

  predicate CategoryVisible(c: Category, owner: Id) {
    c.owner == owner && !c.deleted
  }

  function ChildFilter(owner: Id, parent: Id): Category -> bool {
    c => CategoryVisible(c, owner) && c.parentId == Some(parent)
  }

  /** `children()`: the owner's live categories whose parent is `parent`, in table order. */
  function ChildIds(categories: seq<Category>, owner: Id, parent: Id): (ids: seq<Id>)
    ensures forall i: nat :: i in ids <==> i < |categories| && CategoryVisible(categories[i], owner) && categories[i].parentId == Some(parent)
    ensures forall j, k :: 0 <= j < k < |ids| ==> ids[j] != ids[k]
  {
    Where(categories, ChildFilter(owner, parent))
  }

  /** `hasChildren()`: some live category of the owner names `id` as its parent. */
  function HasChildren(categories: seq<Category>, owner: Id, id: Id): (r: bool)
    ensures r <==> exists i: nat :: i < |categories| && CategoryVisible(categories[i], owner) && categories[i].parentId == Some(id)
  {
    var children := ChildIds(categories, owner, id);
    assert |children| > 0 ==> children[0] in children;
    |children| > 0
  }

  // ---------------------------------------------------------------------
  // Scopes, as predicates on one row; the listing composes them.
  // ---------------------------------------------------------------------

  /** A top-level category: `scopeParentOnly`'s condition, and `isParent`. */
  predicate ParentOnly(c: Category) { c.parentId.None? }
  predicate Active(c: Category) { c.isActive }
  predicate OfCategoryType(c: Category, t: CategoryType) { c.categoryType == t }

  function ScopeParentOnly(categories: seq<Category>, owner: Id): (ids: seq<Id>)
    ensures forall i: nat :: i in ids <==> i < |categories| && CategoryVisible(categories[i], owner) && categories[i].parentId.None?
  {
    Where(categories, c => CategoryVisible(c, owner) && ParentOnly(c))
  }

  /** `scopeIncome`: the owner's live income categories. */
  function ScopeIncome(categories: seq<Category>, owner: Id): (ids: seq<Id>)
    ensures forall i: nat :: i in ids <==>
      i < |categories| && CategoryVisible(categories[i], owner) && categories[i].categoryType == IncomeCategory
  {
    Where(categories, (c: Category) => CategoryVisible(c, owner) && OfCategoryType(c, IncomeCategory))
  }

  /** `scopeExpense`: the owner's live expense categories. */
  function ScopeExpense(categories: seq<Category>, owner: Id): (ids: seq<Id>)
    ensures forall i: nat :: i in ids <==>
      i < |categories| && CategoryVisible(categories[i], owner) && categories[i].categoryType == ExpenseCategory
  {
    Where(categories, (c: Category) => CategoryVisible(c, owner) && OfCategoryType(c, ExpenseCategory))
  }

  function OrderOf(categories: seq<Category>): Id -> int {
    i => if 0 <= i < |categories| then categories[i].order else 0
  }

  /** `scopeOrdered`: the given ids rearranged into non-decreasing `order`. */
  function Ordered(categories: seq<Category>, ids: seq<Id>): (r: seq<Id>)
    ensures multiset(r) == multiset(ids)
    ensures forall j, k :: 0 <= j < k < |r| && r[j] < |categories| && r[k] < |categories| ==>
      categories[r[j]].order <= categories[r[k]].order
  {
    var r := SortBy(ids, OrderOf(categories));
    assert forall j, k :: 0 <= j < k < |r| ==> OrderOf(categories)(r[j]) <= OrderOf(categories)(r[k]);
    r
  }

  /** `transactions()` of a category: the user's live rows that name it. */
  function TransactionsOf(txns: seq<Txn>, owner: Id, id: Id): (ids: seq<Id>)
    ensures forall i: nat :: i in ids <==> i < |txns| && TxnVisible(txns[i], owner) && txns[i].categoryId == Some(id)
  {
    Where(txns, (t: Txn) => TxnVisible(t, owner) && t.categoryId == Some(id))
  }
}
