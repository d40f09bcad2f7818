/** Validation of a create-transaction request
    (app/Http/Requests/Transaction/StoreTransactionRequest.php): the rule
    list, then the after-hook's type-dependent checks. The result is the
    sequence of fields that received an error; an empty sequence means the
    request is accepted. */
module StoreRequest {
  import opened Common
  import opened Transactions
  import opened Accounts
  import opened Contacts
  import opened BalanceEngine

  datatype Field = TypeField | AmountField | AccountField | ToAccountField | CategoryField | ContactField | DateField

  /** The ledger fields of the request body; an absent or null field is
      `None`. The amount is in cents. */
  datatype TxnRequest = TxnRequest(
    typeName: Option<string>,
    amount: Option<int>,
    accountId: Option<Id>,
    toAccountId: Option<Id>,
    categoryId: Option<Id>,
    contactId: Option<Id>,
    date: Option<Date>)

  /** `exists:<table>,id` looks the id up in the whole table: rows of other
      users and soft-deleted rows count as existing. */
  predicate ExistsIn(ref: Id, rows: nat) { ref < rows }

  /** `nullable, exists, different:account_id`: an absent value passes; a
      present one must exist and, when `account_id` is present, differ
      from it. */
  predicate ToAccountRulePasses(req: TxnRequest, nAccounts: nat) {
    req.toAccountId.None?
    || (ExistsIn(req.toAccountId.value, nAccounts) && (req.accountId.None? || req.accountId != req.toAccountId))
  }

  predicate NullableExists(ref: Option<Id>, rows: nat) {
    ref.None? || ExistsIn(ref.value, rows)
  }

  /** The fields that fail `rules()`, in rule order: the type must be one
      of the seven names, the amount at least one cent, the account must
      exist, the destination, when sent, must exist and differ from a sent
      source (and passes `different` when no source is sent), a sent
      category or contact must exist, and the date must be present. */
  function RuleErrors(req: TxnRequest, nAccounts: nat, nCategories: nat, nContacts: nat): (r: seq<Field>)
    ensures |r| <= 7
    ensures TypeField in r <==> req.typeName.None? || ParseType(req.typeName.value).None?
    ensures AmountField in r <==> req.amount.None? || req.amount.value < 1
    ensures AccountField in r <==> req.accountId.None? || req.accountId.value >= nAccounts
    ensures ToAccountField in r <==>
      req.toAccountId.Some? && (req.toAccountId.value >= nAccounts || req.accountId == req.toAccountId)
    ensures CategoryField in r <==> req.categoryId.Some? && req.categoryId.value >= nCategories
    ensures ContactField in r <==> req.contactId.Some? && req.contactId.value >= nContacts
    ensures DateField in r <==> req.date.None?
  {
    (if req.typeName.Some? && ParseType(req.typeName.value).Some? then [] else [TypeField])
    + (if req.amount.Some? && req.amount.value >= 1 then [] else [AmountField])
    + (if req.accountId.Some? && ExistsIn(req.accountId.value, nAccounts) then [] else [AccountField])
    + (if ToAccountRulePasses(req, nAccounts) then [] else [ToAccountField])
    + (if NullableExists(req.categoryId, nCategories) then [] else [CategoryField])
    + (if NullableExists(req.contactId, nContacts) then [] else [ContactField])
    + (if req.date.Some? then [] else [DateField])
  }

  /** The fields the after-hook adds an error to. It runs whether or not a
      rule failed, and compares the raw `type` string, so at most one of
      its three checks can fire: a transfer without a destination, a debt
      type without a contact, or income or expense without a category. */
  function HookErrors(req: TxnRequest): (r: seq<Field>)
    ensures |r| <= 1
    ensures req.typeName.None? ==> r == []
    ensures ToAccountField in r <==> req.typeName == Some("transfer") && req.toAccountId.None?
    ensures ContactField in r <==>
      req.typeName.Some? && req.typeName.value in ["lent", "borrowed", "repayment_in", "repayment_out"] && req.contactId.None?
    ensures CategoryField in r <==> req.typeName.Some? && req.typeName.value in ["income", "expense"] && req.categoryId.None?
  {
    assert "transfer" !in ["lent", "borrowed", "repayment_in", "repayment_out"] && "transfer" !in ["income", "expense"];
    assert forall x :: x in ["income", "expense"] ==> x !in ["lent", "borrowed", "repayment_in", "repayment_out"];
    (if req.typeName == Some("transfer") && req.toAccountId.None? then [ToAccountField] else [])
    + (if req.typeName.Some? && req.typeName.value in ["lent", "borrowed", "repayment_in", "repayment_out"]
          && req.contactId.None? then [ContactField] else [])
    + (if req.typeName.Some? && req.typeName.value in ["income", "expense"] && req.categoryId.None?
       then [CategoryField] else [])
  }

  /** Every field with an error, rules first, then the hook. The request is
      accepted (no error) exactly when it is well formed, and the hook
      never takes away an error a rule reported. */
  function Errors(req: TxnRequest, nAccounts: nat, nCategories: nat, nContacts: nat): (r: seq<Field>)
    ensures r == [] <==> WellFormed(req, nAccounts, nCategories, nContacts)
    ensures forall f :: f in RuleErrors(req, nAccounts, nCategories, nContacts) ==> f in r
  {
    RulesAndHookPassIffWellFormed(req, nAccounts, nCategories, nContacts);
    RuleErrors(req, nAccounts, nCategories, nContacts) + HookErrors(req)
  }

  /** What a complete request is, stated on the parsed type: a known type,
      at least one cent, an existing account, a date, existing optional
      references, a destination other than the source, and the references
      the type needs. */
  predicate WellFormed(req: TxnRequest, nAccounts: nat, nCategories: nat, nContacts: nat) {
    req.typeName.Some? && ParseType(req.typeName.value).Some?
    && req.amount.Some? && req.amount.value >= 1
    && req.accountId.Some? && req.accountId.value < nAccounts
    && req.date.Some?
    && (req.toAccountId.Some? ==> req.toAccountId.value < nAccounts && req.toAccountId != req.accountId)
    && (req.categoryId.Some? ==> req.categoryId.value < nCategories)
    && (req.contactId.Some? ==> req.contactId.value < nContacts)
    && var t := ParseType(req.typeName.value).value;
       (t == Transfer ==> req.toAccountId.Some?)
       && (t in {Lent, Borrowed, RepaymentIn, RepaymentOut} ==> req.contactId.Some?)
       && (t in {Income, Expense} ==> req.categoryId.Some?)
  }

  /** No rule reports an error exactly when every rule of `rules()` passes. */
  lemma RulesPassIff(req: TxnRequest, nAccounts: nat, nCategories: nat, nContacts: nat)
    ensures RuleErrors(req, nAccounts, nCategories, nContacts) == [] <==>
      req.typeName.Some? && ParseType(req.typeName.value).Some?
      && req.amount.Some? && req.amount.value >= 1
      && req.accountId.Some? && req.accountId.value < nAccounts
      && ToAccountRulePasses(req, nAccounts)
      && NullableExists(req.categoryId, nCategories) && NullableExists(req.contactId, nContacts)
      && req.date.Some?
  {
    var r := RuleErrors(req, nAccounts, nCategories, nContacts);
    if r != [] {
      assert r[0] in r;
    }
  }

  /** For a known type, the hook reports nothing exactly when the row has
      the reference its type needs. */
  lemma HookPassesIff(req: TxnRequest)
    requires req.typeName.Some? && ParseType(req.typeName.value).Some?
    ensures var t := ParseType(req.typeName.value).value;
      HookErrors(req) == [] <==>
        (t == Transfer ==> req.toAccountId.Some?)
        && (t in {Lent, Borrowed, RepaymentIn, RepaymentOut} ==> req.contactId.Some?)
        && (t in {Income, Expense} ==> req.categoryId.Some?)
  {
    var t := ParseType(req.typeName.value).value;
    assert req.typeName.value == TypeName(t);
    assert req.typeName.value in ["lent", "borrowed", "repayment_in", "repayment_out"]
      <==> t in {Lent, Borrowed, RepaymentIn, RepaymentOut};
    assert req.typeName.value in ["income", "expense"] <==> t in {Income, Expense};
  }

  /** Neither the rules nor the hook report an error exactly when the
      request is well formed. */
  lemma RulesAndHookPassIffWellFormed(req: TxnRequest, nAccounts: nat, nCategories: nat, nContacts: nat)
    ensures RuleErrors(req, nAccounts, nCategories, nContacts) == [] && HookErrors(req) == []
      <==> WellFormed(req, nAccounts, nCategories, nContacts)
  {
    RulesPassIff(req, nAccounts, nCategories, nContacts);
    if req.typeName.Some? && ParseType(req.typeName.value).Some? {
      HookPassesIff(req);
    }
  }

  /** The row `createTransaction` persists for an accepted request: the
      validated fields, owned by the requesting user. */
  function ToRow(req: TxnRequest, owner: Id): (r: Option<Txn>)
    ensures r.Some? <==> req.typeName.Some? && ParseType(req.typeName.value).Some? && req.amount.Some? && req.date.Some?
    ensures r.Some? ==> (TxnVisible(r.value, owner) && TypeName(r.value.txnType) == req.typeName.value
      && r.value.amount == req.amount.value && r.value.date == req.date.value
      && r.value.accountId == req.accountId && r.value.toAccountId == req.toAccountId
      && r.value.categoryId == req.categoryId && r.value.contactId == req.contactId)
  {
    if req.typeName.Some? && ParseType(req.typeName.value).Some? && req.amount.Some? && req.date.Some? then
      Some(Txn(owner, ParseType(req.typeName.value).value, req.amount.value, req.accountId, req.toAccountId,
               req.categoryId, req.contactId, req.date.value, false))
    else None
  }

  /** An accepted request gives the balance engine every reference it
      dereferences for the row's type, and a transfer between two different
      accounts. Whether `find` returns those rows depends on their owner and
      on their not being deleted, which validation does not check: when the
      referenced rows are the user's live rows, the row resolves. */
  lemma AcceptedRowResolves(req: TxnRequest, accounts: seq<Account>, nCategories: nat, contacts: seq<Contact>, owner: Id)
    requires Errors(req, |accounts|, nCategories, |contacts|) == []
    requires req.accountId.Some? ==> req.accountId.value < |accounts| && AccountVisible(accounts[req.accountId.value], owner)
    requires req.toAccountId.Some? ==> req.toAccountId.value < |accounts| && AccountVisible(accounts[req.toAccountId.value], owner)
    requires req.contactId.Some? ==> req.contactId.value < |contacts| && ContactVisible(contacts[req.contactId.value], owner)
    ensures ToRow(req, owner).Some?
    ensures var t := ToRow(req, owner).value;
      Resolves(accounts, contacts, owner, t) && t.amount >= 1
      && (t.txnType == Transfer ==> t.accountId != t.toAccountId)
  {
  }

  /** Validation does not look at who owns a referenced row: a request that
      names another user's account is accepted, and the engine's `find`
      then returns null for it. */
  lemma AcceptedButForeignAccount()
    ensures var accounts := [Account(1, Asset, BankAccount, 0, None, true, true, false)];
      var req := TxnRequest(Some("income"), Some(100), Some(0), None, Some(0), None, Some(Date(2025, 1, 1)));
      Errors(req, |accounts|, 1, 0) == []
      && ToRow(req, 0).Some? && !Resolves(accounts, [], 0, ToRow(req, 0).value)
  {
    var accounts := [Account(1, Asset, BankAccount, 0, None, true, true, false)];
    var req := TxnRequest(Some("income"), Some(100), Some(0), None, Some(0), None, Some(Date(2025, 1, 1)));
    assert ParseType("income") == Some(Income);
    assert WellFormed(req, |accounts|, 1, 0);
    assert !AccountVisible(accounts[0], 0);
  }
}
