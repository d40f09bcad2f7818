/** The category endpoints (app/Http/Controllers/Api/CategoryController.php):
    the listing's filters and order, and the two delete guards. */
module CategoryController {
  import opened Common
  import opened Transactions
  import opened Categories
  import opened Store

  /** The listing's query string: `type` when present, and the
      `parent_only` and `active_only` flags. */
  datatype CategoryQuery = CategoryQuery(typeName: Option<string>, parentOnly: bool, activeOnly: bool)

  predicate Matches(c: Category, owner: Id, q: CategoryQuery) {
    CategoryVisible(c, owner)
    && (q.typeName.Some? ==> CategoryTypeName(c.categoryType) == q.typeName.value)
    && (q.parentOnly ==> ParentOnly(c))
    && (q.activeOnly ==> Active(c))
  }

  function MatchFilter(owner: Id, q: CategoryQuery): Category -> bool {
    (c: Category) => Matches(c, owner, q)
  }

  /** `index`: the matching categories, each once, in `order`. */
  function Index(categories: seq<Category>, owner: Id, q: CategoryQuery): (ids: seq<Id>)
    ensures forall i: nat :: i in ids <==> i < |categories| && Matches(categories[i], owner, q)
    ensures Distinct(ids)
    ensures forall j, k :: 0 <= j < k < |ids| ==>
      (ids[j] < |categories| && ids[k] < |categories| && categories[ids[j]].order <= categories[ids[k]].order)
  {
    var matching := Where(categories, MatchFilter(owner, q));
    var ids := Ordered(categories, matching);
    assert forall i :: i in ids <==> i in matching by {
      forall i ensures i in ids <==> i in matching {
        assert i in ids <==> multiset(ids)[i] > 0;
        assert i in matching <==> multiset(matching)[i] > 0;
      }
    }
    DistinctPermutation(matching, ids);
    ids
  }

  /** Asking for `parent_only` lists exactly the parent-only scope. */
  lemma ParentOnlyIndexIsScope(categories: seq<Category>, owner: Id)
    ensures forall i: nat :: i in Index(categories, owner, CategoryQuery(None, true, false)) <==> i in ScopeParentOnly(categories, owner)
  {
  }

  /** Filtering the listing by type splits it: each listed category is in
      exactly one of the `type=income` and `type=expense` listings, and
      their lengths add up to the length of the listing without a type
      filter. */
  lemma TypeFilterSplitsIndex(categories: seq<Category>, owner: Id, parentOnly: bool, activeOnly: bool)
    ensures var all := Index(categories, owner, CategoryQuery(None, parentOnly, activeOnly));
      var income := Index(categories, owner, CategoryQuery(Some("income"), parentOnly, activeOnly));
      var expense := Index(categories, owner, CategoryQuery(Some("expense"), parentOnly, activeOnly));
      (forall i: nat :: i in all <==> i in income || i in expense)
      && (forall i: nat :: !(i in income && i in expense))
      && |income| + |expense| == |all|
  {
    var all := Index(categories, owner, CategoryQuery(None, parentOnly, activeOnly));
    var income := Index(categories, owner, CategoryQuery(Some("income"), parentOnly, activeOnly));
    var expense := Index(categories, owner, CategoryQuery(Some("expense"), parentOnly, activeOnly));
    forall c: Category ensures
      var listed := Matches(c, owner, CategoryQuery(None, parentOnly, activeOnly));
      var isIncome := Matches(c, owner, CategoryQuery(Some("income"), parentOnly, activeOnly));
      var isExpense := Matches(c, owner, CategoryQuery(Some("expense"), parentOnly, activeOnly));
      (listed <==> isIncome || isExpense) && !(isIncome && isExpense)
    {
      assert CategoryTypeName(c.categoryType) == "income" <==> c.categoryType == IncomeCategory;
      assert CategoryTypeName(c.categoryType) == "expense" <==> c.categoryType == ExpenseCategory;
    }
    SplitLength(all, income, expense);
  }

  /** `type=income` lists exactly the income scope, and `type=expense`
      the expense scope. */
  lemma IndexByTypeIsScope(categories: seq<Category>, owner: Id)
    ensures forall i: nat :: i in Index(categories, owner, CategoryQuery(Some("income"), false, false)) <==> i in ScopeIncome(categories, owner)
    ensures forall i: nat :: i in Index(categories, owner, CategoryQuery(Some("expense"), false, false)) <==> i in ScopeExpense(categories, owner)
  {
    forall t: CategoryType ensures (CategoryTypeName(t) == "income" <==> t == IncomeCategory)
      && (CategoryTypeName(t) == "expense" <==> t == ExpenseCategory) {
    }
  }

  /** `destroy`: the route finds only the user's live categories; a
      category named by a transaction is refused first, one with a live
      subcategory next; otherwise it is soft-deleted. */
  method Destroy(db: Database, owner: Id, id: Id) returns (r: DestroyOutcome)
    requires db.Valid()
    modifies db`categories
    ensures db.Valid()
    ensures r == Missing <==> !(id < |old(db.categories)| && CategoryVisible(old(db.categories)[id], owner))
    ensures r == Rejected(HasTransactions) <==>
      id < |old(db.categories)| && CategoryVisible(old(db.categories)[id], owner) && |TransactionsOf(db.transactions, owner, id)| > 0
    ensures r == Rejected(HasSubcategories) <==>
      id < |old(db.categories)| && CategoryVisible(old(db.categories)[id], owner) && |TransactionsOf(db.transactions, owner, id)| == 0
      && HasChildren(old(db.categories), owner, id)
    ensures r in {Missing, Rejected(HasTransactions), Rejected(HasSubcategories), Deleted}
    ensures r != Deleted ==> db.categories == old(db.categories)
    ensures r == Deleted ==> db.categories == old(db.categories)[id := old(db.categories)[id].(deleted := true)]
  {
    if !(id < |db.categories| && CategoryVisible(db.categories[id], owner)) {
      return Missing;
    }
    if |TransactionsOf(db.transactions, owner, id)| > 0 {
      return Rejected(HasTransactions);
    }
    if HasChildren(db.categories, owner, id) {
      return Rejected(HasSubcategories);
    }
    db.categories := db.categories[id := db.categories[id].(deleted := true)];
    r := Deleted;
  }

  /** Deleting a category leaves no live category of the user whose parent
      it is: the guard refused any that had one. */
  lemma DeletedCategoryOrphansNothing(categories: seq<Category>, owner: Id, id: Id)
    requires id < |categories| && CategoryVisible(categories[id], owner) && !HasChildren(categories, owner, id)
    ensures !HasChildren(categories[id := categories[id].(deleted := true)], owner, id)
  {
    var after := categories[id := categories[id].(deleted := true)];
    forall c: nat | c < |after| && CategoryVisible(after[c], owner)
      ensures after[c].parentId != Some(id)
    {
      assert CategoryVisible(categories[c], owner);
    }
  }
}
