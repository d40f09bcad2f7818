/** The contact endpoints (app/Http/Controllers/Api/ContactController.php):
    the listing's status filter, the settled-only delete guard, and the debt
    summary. */
module ContactController {
  import opened Common
  import opened Contacts
  import opened Store

  /** The listing's query string: `status` when present, and the
      `active_only` flag. */
  datatype ContactQuery = ContactQuery(status: Option<string>, activeOnly: bool)

  /** The `status` switch: the three known values pick their scope; any
      other value, like no value, filters nothing. */
  predicate StatusMatches(c: Contact, status: Option<string>) {
    if status == Some("owes_you") then OwesYou(c)
    else if status == Some("you_owe") then YouOwe(c)
    else if status == Some("settled") then IsSettled(c)
    else true
  }

  predicate Matches(c: Contact, owner: Id, q: ContactQuery) {
    ContactVisible(c, owner) && StatusMatches(c, q.status) && (q.activeOnly ==> c.isActive)
  }

  function MatchFilter(owner: Id, q: ContactQuery): Contact -> bool {
    (c: Contact) => Matches(c, owner, q)
  }

  /** `index`: the matching contacts. */
  function Index(contacts: seq<Contact>, owner: Id, q: ContactQuery): (ids: seq<Id>)
    ensures forall i: nat :: i in ids <==> i < |contacts| && Matches(contacts[i], owner, q)
  {
    Where(contacts, MatchFilter(owner, q))
  }

  /** A known status lists the contacts whose `getBalanceStatus` is that
      status; an unknown status lists the same contacts as no status. */
  lemma IndexStatusAgreesWithBalanceStatus(contacts: seq<Contact>, owner: Id, q: ContactQuery, i: nat)
    requires i < |contacts| && ContactVisible(contacts[i], owner) && (q.activeOnly ==> contacts[i].isActive)
    ensures q.status.Some? && q.status.value in ["owes_you", "you_owe", "settled"] ==>
      (i in Index(contacts, owner, q) <==> BalanceStatus(contacts[i]) == q.status.value)
    ensures !(q.status.Some? && q.status.value in ["owes_you", "you_owe", "settled"]) ==>
      (i in Index(contacts, owner, q) <==> i in Index(contacts, owner, q.(status := None)))
  {
    ExactlyOneStatus(contacts[i]);
  }

  /** The `summary` response. */
  datatype DebtSummary = DebtSummary(
    totalOwedToYou: int,
    totalYouOwe: int,
    netPosition: int,
    contactsCount: nat,
    settledCount: nat)

  function VisibleFilter(owner: Id): Contact -> bool {
    (c: Contact) => ContactVisible(c, owner)
  }

  function NonNegativeFilter(owner: Id): Contact -> bool {
    (c: Contact) => ContactVisible(c, owner) && c.balance >= 0
  }

  /** The sum of the positive balances plus the sum of the negative ones is
      the sum of all balances. */
  lemma BalancesSplitBySign(contacts: seq<Contact>, owner: Id)
    ensures SumOf(contacts, OwesYouFilter(owner), ContactBalance) + SumOf(contacts, YouOweFilter(owner), ContactBalance)
      == SumOf(contacts, VisibleFilter(owner), ContactBalance)
  {
    SumOfSplit(contacts, YouOweFilter(owner), NonNegativeFilter(owner), VisibleFilter(owner), ContactBalance);
    SumOfCongruent(contacts, NonNegativeFilter(owner), ContactBalance, OwesYouFilter(owner), ContactBalance);
  }

  /** `summary`: what contacts owe the user (never negative), what the
      user owes (the absolute value of the negative balances, never
      negative), the net position, which is the sum of every balance, and
      the number of contacts and of settled ones. */
  function Summary(contacts: seq<Contact>, owner: Id): (s: DebtSummary)
    ensures s.totalOwedToYou >= 0 && s.totalYouOwe >= 0
    ensures s.netPosition == s.totalOwedToYou - s.totalYouOwe
    ensures s.netPosition == SumOf(contacts, VisibleFilter(owner), ContactBalance)
    ensures s.settledCount <= s.contactsCount
  {
    var owed := SumOf(contacts, OwesYouFilter(owner), ContactBalance);
    var owing := Abs(SumOf(contacts, YouOweFilter(owner), ContactBalance));
    SumOfNonNegative(contacts, OwesYouFilter(owner), ContactBalance);
    SumOfNonPositive(contacts, YouOweFilter(owner), ContactBalance);
    BalancesSplitBySign(contacts, owner);
    CountMonotone(contacts, SettledFilter(owner), VisibleFilter(owner));
    DebtSummary(owed, owing, owed - owing, Count(contacts, VisibleFilter(owner)), Count(contacts, SettledFilter(owner)))
  }

  /** `destroy`: the route finds only the user's live contacts; a contact
      whose balance is not zero is refused; otherwise it is soft-deleted. */
  method Destroy(db: Database, owner: Id, id: Id) returns (r: DestroyOutcome)
    requires db.Valid()
    modifies db`contacts
    ensures db.Valid()
    ensures r == Missing <==> !(id < |old(db.contacts)| && ContactVisible(old(db.contacts)[id], owner))
    ensures r == Rejected(UnsettledBalance) <==>
      id < |old(db.contacts)| && ContactVisible(old(db.contacts)[id], owner) && !IsSettled(old(db.contacts)[id])
    ensures r in {Missing, Rejected(UnsettledBalance), Deleted}
    ensures r != Deleted ==> db.contacts == old(db.contacts)
    ensures r == Deleted ==> db.contacts == old(db.contacts)[id := old(db.contacts)[id].(deleted := true)]
  {
    if !(id < |db.contacts| && ContactVisible(db.contacts[id], owner)) {
      return Missing;
    }
    if !IsSettled(db.contacts[id]) {
      return Rejected(UnsettledBalance);
    }
    db.contacts := db.contacts[id := db.contacts[id].(deleted := true)];
    r := Deleted;
  }

  /** Deleting a settled contact leaves the net position where it was. */
  lemma DestroyKeepsNetPosition(contacts: seq<Contact>, owner: Id, id: Id)
    requires id < |contacts| && ContactVisible(contacts[id], owner) && IsSettled(contacts[id])
    ensures Summary(contacts[id := contacts[id].(deleted := true)], owner).netPosition == Summary(contacts, owner).netPosition
  {
    SumOfUpdate(contacts, id, contacts[id].(deleted := true), VisibleFilter(owner), ContactBalance);
  }
}
