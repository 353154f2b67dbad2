/**
 * The `useContacts` hook (src/hooks/useContacts.ts): local React state holding the contact list
 * and the ids of the selected contacts. Every action replaces the state with the value of a pure
 * updater from `ClientLists`. `generateId()` and `new Date()` are parameters; the initial demo
 * data is the constructor's argument.
 */
module ContactsHook {
  import opened Types
  import opened ClientLists
  import Seqs

  class ContactsState {
    var contacts: seq<Contact>
    var selectedContacts: seq<string>

    constructor(initial: seq<Contact>)
      ensures contacts == initial && selectedContacts == []
    {
      contacts := initial;
      selectedContacts := [];
    }

    /** The exposed `setContacts`. */
    method SetContacts(cs: seq<Contact>)
      modifies this
      ensures contacts == cs && selectedContacts == old(selectedContacts)
    {
      contacts := cs;
    }

    /** The exposed `setSelectedContacts`. */
    method SetSelectedContacts(ids: seq<string>)
      modifies this
      ensures selectedContacts == ids && contacts == old(contacts)
    {
      selectedContacts := ids;
    }

    /** `addContact`: one new contact, status `new`, at the end. */
    method AddContact(input: ContactInput, id: string, now: int)
      modifies this
      ensures contacts == old(contacts) + [NewContact(input, id, now)]
      ensures |contacts| == |old(contacts)| + 1 && contacts[|contacts| - 1].status == New
      ensures selectedContacts == old(selectedContacts)
    {
      contacts := contacts + [NewContact(input, id, now)];
    }

    /** `deleteContact`: the id leaves both the list and the selection; nothing else changes. */
    method DeleteContact(id: string)
      modifies this
      ensures contacts == WithoutContact(old(contacts), id)
      ensures selectedContacts == WithoutId(old(selectedContacts), id)
      ensures forall c :: c in contacts <==> c in old(contacts) && c.id != id
      ensures forall x :: x in selectedContacts <==> x in old(selectedContacts) && x != id
    {
      contacts := WithoutContact(contacts, id);
      selectedContacts := WithoutId(selectedContacts, id);
    }

    /** `importContacts`: all imported contacts, status `new`, appended in input order. */
    method ImportContacts(inputs: seq<ContactInput>, ids: seq<string>, stamps: seq<int>)
      requires |ids| == |inputs| && |stamps| == |inputs|
      modifies this
      ensures contacts == old(contacts) + NewContacts(inputs, ids, stamps)
      ensures forall i :: |old(contacts)| <= i < |contacts| ==> contacts[i].status == New
      ensures selectedContacts == old(selectedContacts)
    {
      contacts := contacts + NewContacts(inputs, ids, stamps);
    }

    /** `selectContact`: toggles the id; a selection without repetitions keeps none. */
    method SelectContact(id: string)
      modifies this
      ensures selectedContacts == Toggle(old(selectedContacts), id)
      ensures id in selectedContacts <==> id !in old(selectedContacts)
      ensures Seqs.Distinct(old(selectedContacts)) ==> Seqs.Distinct(selectedContacts)
      ensures contacts == old(contacts)
    {
      selectedContacts := Toggle(selectedContacts, id);
    }

    /** `selectAllContacts`: the length rule of `SelectAll`; the contact list is handed back unchanged. */
    method SelectAllContacts()
      modifies this
      ensures selectedContacts == SelectAll(old(selectedContacts), old(contacts))
      ensures contacts == old(contacts)
    {
      var current := contacts;
      selectedContacts := SelectAll(selectedContacts, current);
      contacts := current;
    }
  }
}
