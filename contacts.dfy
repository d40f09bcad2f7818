/** The contact row (app/Models/Contact.php): a signed debt balance that is
    positive when the contact owes the user and negative when the user owes
    the contact, its status predicates and its scopes. */
module Contacts {
  import opened Common

  /** A contacts row; `balance` is integer cents. */
  datatype Contact = Contact(owner: Id, balance: int, isActive: bool, deleted: bool)

  predicate ContactVisible(c: Contact, owner: Id) {
    c.owner == owner && !c.deleted
  }

  function ContactBalance(c: Contact): int { c.balance }

  /** `Contact::find(id)` under the owner scope. */
  function FindContact(contacts: seq<Contact>, owner: Id, ref: Option<Id>): (r: Option<Id>)
    ensures r.Some? <==> ref.Some? && ref.value < |contacts| && ContactVisible(contacts[ref.value], owner)
    ensures r.Some? ==> r == ref
  {
    if ref.Some? && ref.value < |contacts| && ContactVisible(contacts[ref.value], owner) then ref else None
  }

  /** The table after `updateBalance(x)` on row `id`: that row's balance
      grows by `x`, and nothing else in the table changes. */
  function CreditContact(contacts: seq<Contact>, id: Id, x: int): (r: seq<Contact>)
    requires id < |contacts|
    ensures |r| == |contacts|
    ensures r[id].balance == contacts[id].balance + x
    ensures r[id] == contacts[id].(balance := r[id].balance)
    ensures forall j :: 0 <= j < |r| && j != id ==> r[j] == contacts[j]
  {
    contacts[id := contacts[id].(balance := contacts[id].balance + x)]
  }

  predicate OwesYou(c: Contact) { c.balance > 0 }
  predicate YouOwe(c: Contact) { c.balance < 0 }
  predicate IsSettled(c: Contact) { c.balance == 0 }

  /** Exactly one of the three status predicates holds of every contact. */
  lemma ExactlyOneStatus(c: Contact)
    ensures OwesYou(c) || YouOwe(c) || IsSettled(c)
    ensures !(OwesYou(c) && YouOwe(c)) && !(OwesYou(c) && IsSettled(c)) && !(YouOwe(c) && IsSettled(c))
  {
  }

  /** The status label, which agrees with the three predicates. */
  function BalanceStatus(c: Contact): (r: string)
    ensures r == "owes_you" <==> OwesYou(c)
    ensures r == "you_owe" <==> YouOwe(c)
    ensures r == "settled" <==> IsSettled(c)
  {
    if c.balance > 0 then "owes_you"
    else if c.balance < 0 then "you_owe"
    else "settled"
  }

  function OwesYouFilter(owner: Id): Contact -> bool { c => ContactVisible(c, owner) && c.balance > 0 }
  function YouOweFilter(owner: Id): Contact -> bool { c => ContactVisible(c, owner) && c.balance < 0 }
  function SettledFilter(owner: Id): Contact -> bool { c => ContactVisible(c, owner) && c.balance == 0 }
  function ActiveFilter(owner: Id): Contact -> bool { c => ContactVisible(c, owner) && c.isActive }

  function ScopeOwesYou(contacts: seq<Contact>, owner: Id): (ids: seq<Id>)
    ensures forall i: nat :: i in ids <==> i < |contacts| && ContactVisible(contacts[i], owner) && OwesYou(contacts[i])
  {
    Where(contacts, OwesYouFilter(owner))
  }

  function ScopeYouOwe(contacts: seq<Contact>, owner: Id): (ids: seq<Id>)
    ensures forall i: nat :: i in ids <==> i < |contacts| && ContactVisible(contacts[i], owner) && YouOwe(contacts[i])
  {
    Where(contacts, YouOweFilter(owner))
  }

  function ScopeSettled(contacts: seq<Contact>, owner: Id): (ids: seq<Id>)
    ensures forall i: nat :: i in ids <==> i < |contacts| && ContactVisible(contacts[i], owner) && IsSettled(contacts[i])
  {
    Where(contacts, SettledFilter(owner))
  }

  function ScopeActive(contacts: seq<Contact>, owner: Id): (ids: seq<Id>)
    ensures forall i: nat :: i in ids <==> i < |contacts| && ContactVisible(contacts[i], owner) && contacts[i].isActive
  {
    Where(contacts, ActiveFilter(owner))
  }

  /** The three balance scopes partition the owner's contacts, and each keeps
      exactly the contacts whose status label names it. */
  lemma BalanceScopesPartition(contacts: seq<Contact>, owner: Id, i: nat)
    requires i < |contacts| && ContactVisible(contacts[i], owner)
    ensures (i in ScopeOwesYou(contacts, owner)) <==> BalanceStatus(contacts[i]) == "owes_you"
    ensures (i in ScopeYouOwe(contacts, owner)) <==> BalanceStatus(contacts[i]) == "you_owe"
    ensures (i in ScopeSettled(contacts, owner)) <==> BalanceStatus(contacts[i]) == "settled"
  {
  }
}
