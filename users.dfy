/** The user's totals over their accounts (app/Models/User.php): total
    assets, total liabilities and net worth, and how the balance engine's
    writes move them. */
module Users {
  import opened Common
  import opened Transactions
  import opened Accounts
  import opened BalanceEngine

  /** The accounts `getTotalAssets` / `getTotalLiabilities` add up: the
      user's live accounts of the type that are active and included in
      totals. */
  function CountedFilter(owner: Id, t: AccountType): Account -> bool {
    (a: Account) => AccountVisible(a, owner) && a.accountType == t && a.isActive && a.includeInTotal
  }

  /** `getTotalAssets`: every account contributes its balance when it is
      one of the user's live, active, included assets, and 0 otherwise. */
  function TotalAssets(accounts: seq<Account>, owner: Id): (r: int)
    ensures r == SumOf(accounts, Everything(), Masked(CountedFilter(owner, Asset), BalanceOf))
  {
    SumOfMasked(accounts, CountedFilter(owner, Asset), BalanceOf);
    SumOf(accounts, CountedFilter(owner, Asset), BalanceOf)
  }

  /** `getTotalLiabilities`: every account contributes its balance when it
      is one of the user's live, active, included liabilities, and 0
      otherwise. */
  function TotalLiabilities(accounts: seq<Account>, owner: Id): (r: int)
    ensures r == SumOf(accounts, Everything(), Masked(CountedFilter(owner, Liability), BalanceOf))
  {
    SumOfMasked(accounts, CountedFilter(owner, Liability), BalanceOf);
    SumOf(accounts, CountedFilter(owner, Liability), BalanceOf)
  }

  /** `getNetWorth`: total assets minus total liabilities, which is the sum
      over all accounts of each balance times its weight. */
  function NetWorth(accounts: seq<Account>, owner: Id): (r: int)
    ensures r == TotalAssets(accounts, owner) - TotalLiabilities(accounts, owner)
    ensures r == SumOf(accounts, Everything(), WeightedBalance(owner))
  {
    TotalsAreWeightedSum(accounts, owner);
    TotalAssets(accounts, owner) - TotalLiabilities(accounts, owner)
  }

  /** How one account's balance counts towards net worth: +1 for a counted
      asset, -1 for a counted liability, 0 for an account left out. */
  function Weight(a: Account, owner: Id): (w: int)
    ensures w == 1 <==> CountedFilter(owner, Asset)(a)
    ensures w == -1 <==> CountedFilter(owner, Liability)(a)
    ensures w == 0 <==> !CountedFilter(owner, Asset)(a) && !CountedFilter(owner, Liability)(a)
  {
    if CountedFilter(owner, Asset)(a) then 1
    else if CountedFilter(owner, Liability)(a) then -1
    else 0
  }

  function WeightedBalance(owner: Id): Account -> int {
    (a: Account) => Weight(a, owner) * a.balance
  }

  /** Total assets minus total liabilities is the sum over all accounts of
      each balance times its weight: the counted assets added, the counted
      liabilities subtracted, every other account ignored. */
  lemma {:induction false} TotalsAreWeightedSum(accounts: seq<Account>, owner: Id)
    ensures SumOf(accounts, CountedFilter(owner, Asset), BalanceOf) - SumOf(accounts, CountedFilter(owner, Liability), BalanceOf)
      == SumOf(accounts, Everything(), WeightedBalance(owner))
  {
    if accounts != [] {
      TotalsAreWeightedSum(accounts[1..], owner);
    }
  }

  /** Crediting `x` to one account moves the asset total by `x` when that
      account is a counted asset, the liability total by `x` when it is a
      counted liability, and net worth by its weight times `x`. */
  lemma CreditChangesNetWorth(accounts: seq<Account>, owner: Id, j: Id, x: int)
    requires j < |accounts|
    ensures TotalAssets(CreditAccount(accounts, j, x), owner)
      == TotalAssets(accounts, owner) + (if CountedFilter(owner, Asset)(accounts[j]) then x else 0)
    ensures TotalLiabilities(CreditAccount(accounts, j, x), owner)
      == TotalLiabilities(accounts, owner) + (if CountedFilter(owner, Liability)(accounts[j]) then x else 0)
    ensures NetWorth(CreditAccount(accounts, j, x), owner) == NetWorth(accounts, owner) + Weight(accounts[j], owner) * x
  {
    var r := CreditAccount(accounts, j, x);
    assert accounts[j := r[j]] == r;
    SumOfUpdate(accounts, j, r[j], CountedFilter(owner, Asset), BalanceOf);
    SumOfUpdate(accounts, j, r[j], CountedFilter(owner, Liability), BalanceOf);
  }

  /** Applying or reversing a row moves net worth by the weight of its
      account times the source effect, plus, for a transfer, the weight of
      the destination times the amount. */
  lemma ApplyChangesNetWorth(accounts: seq<Account>, owner: Id, t: Txn, dir: Direction)
    requires AccountsResolve(accounts, owner, t)
    ensures NetWorth(ApplyToAccounts(accounts, owner, t, dir), owner)
      == NetWorth(accounts, owner)
       + Weight(accounts[t.accountId.value], owner) * Signed(dir, AccountEffect(t))
       + (if t.txnType == Transfer then Weight(accounts[t.toAccountId.value], owner) * Signed(dir, t.amount) else 0)
  {
    var src := t.accountId.value;
    var a1 := CreditAccount(accounts, src, Signed(dir, AccountEffect(t)));
    CreditChangesNetWorth(accounts, owner, src, Signed(dir, AccountEffect(t)));
    if t.txnType == Transfer {
      var dst := t.toAccountId.value;
      CreditChangesNetWorth(a1, owner, dst, Signed(dir, t.amount));
      assert Weight(a1[dst], owner) == Weight(accounts[dst], owner);
    }
  }

  /** A transfer between two accounts that count the same way towards net
      worth (two counted assets, two counted liabilities, or two accounts
      left out of the totals) leaves net worth where it was. */
  lemma TransferBetweenLikeAccountsKeepsNetWorth(accounts: seq<Account>, owner: Id, t: Txn, dir: Direction)
    requires AccountsResolve(accounts, owner, t) && t.txnType == Transfer
    requires Weight(accounts[t.accountId.value], owner) == Weight(accounts[t.toAccountId.value], owner)
    ensures NetWorth(ApplyToAccounts(accounts, owner, t, dir), owner) == NetWorth(accounts, owner)
  {
    ApplyChangesNetWorth(accounts, owner, t, dir);
  }

  /** A transfer from a counted asset into a counted liability (paying a
      credit card from a bank account) lowers net worth by twice the amount:
      the asset total falls by the amount and the liability total, which is
      subtracted, rises by it. */
  lemma TransferAssetToLiabilityNetWorth(accounts: seq<Account>, owner: Id, t: Txn)
    requires AccountsResolve(accounts, owner, t) && t.txnType == Transfer
    requires CountedFilter(owner, Asset)(accounts[t.accountId.value])
    requires CountedFilter(owner, Liability)(accounts[t.toAccountId.value])
    ensures NetWorth(ApplyToAccounts(accounts, owner, t, Apply), owner) == NetWorth(accounts, owner) - 2 * t.amount
  {
    ApplyChangesNetWorth(accounts, owner, t, Apply);
  }
}
