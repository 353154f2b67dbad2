/**
 * The application store (src/store/useAppStore.ts): the contacts and templates the UI shows, the
 * current selections and two loading flags. Each asynchronous action is one atomic step that is
 * given how its API call settled (`Settled`), so the intermediate React renders while a promise is
 * pending are not part of the model; the flag writes happen in their source order inside the step.
 * A rejected call either is swallowed (the fetches) or escapes the action, which is returned as
 * `thrown`.
 */
module AppStore {
  import opened Wrappers
  import opened Types
  import opened ClientLists

  /** How an awaited API call settled. */
  datatype Settled<T> = Resolved(value: T) | Rejected(reason: string)

  /** What a list endpoint resolved with; anything that is not an array is `NotAnArray`. */
  datatype Payload = ContactArray(items: seq<Contact>) | NotAnArray

  /** `Array.isArray(data) ? data : []`. */
  function ContactsFrom(p: Payload): (r: seq<Contact>)
    ensures p.ContactArray? ==> r == p.items
    ensures p.NotAnArray? ==> r == []
  {
    match p
    case ContactArray(items) => items
    case NotAnArray => []
  }

  /** The reason a settled call escapes with, if it was rejected. */
  function ThrownBy<T>(s: Settled<T>): (r: Option<string>)
    ensures r.None? <==> s.Resolved?
    ensures s.Rejected? ==> r == Some(s.reason)
  {
    if s.Rejected? then Some(s.reason) else None
  }

  class Store {
    var contacts: seq<Contact>
    var templates: seq<EmailTemplate>
    var selectedContacts: seq<string>
    var selectedTemplate: Option<string>
    var isLoadingContacts: bool
    var isLoadingTemplates: bool

    /** The initial state: empty lists, nothing selected, nothing loading. */
    constructor()
      ensures contacts == [] && templates == [] && selectedContacts == [] && selectedTemplate == None
      ensures !isLoadingContacts && !isLoadingTemplates
    {
      contacts := [];
      templates := [];
      selectedContacts := [];
      selectedTemplate := None;
      isLoadingContacts := false;
      isLoadingTemplates := false;
    }

    /**
     * `fetchContacts`: an array replaces the list, anything else empties it, a failure keeps it;
     * the loading flag is off afterwards in every case.
     */
    method FetchContacts(response: Settled<Payload>)
      modifies this
      ensures contacts == (if response.Resolved? then ContactsFrom(response.value) else old(contacts))
      ensures !isLoadingContacts
      ensures templates == old(templates) && selectedContacts == old(selectedContacts)
      ensures selectedTemplate == old(selectedTemplate) && isLoadingTemplates == old(isLoadingTemplates)
    {
      isLoadingContacts := true;
      if response.Resolved? {
        contacts := ContactsFrom(response.value);
      }
      isLoadingContacts := false;
    }

    /** `fetchTemplates`: the resolved list replaces the templates, a failure keeps them. */
    method FetchTemplates(response: Settled<seq<EmailTemplate>>)
      modifies this
      ensures templates == (if response.Resolved? then response.value else old(templates))
      ensures !isLoadingTemplates
      ensures contacts == old(contacts) && selectedContacts == old(selectedContacts)
      ensures selectedTemplate == old(selectedTemplate) && isLoadingContacts == old(isLoadingContacts)
    {
      isLoadingTemplates := true;
      if response.Resolved? {
        templates := response.value;
      }
      isLoadingTemplates := false;
    }

    method SetSelectedContacts(ids: seq<string>)
      modifies this
      ensures selectedContacts == ids
      ensures contacts == old(contacts) && templates == old(templates) && selectedTemplate == old(selectedTemplate)
      ensures isLoadingContacts == old(isLoadingContacts) && isLoadingTemplates == old(isLoadingTemplates)
    {
      selectedContacts := ids;
    }

    method SetSelectedTemplate(id: Option<string>)
      modifies this
      ensures selectedTemplate == id
      ensures contacts == old(contacts) && templates == old(templates) && selectedContacts == old(selectedContacts)
      ensures isLoadingContacts == old(isLoadingContacts) && isLoadingTemplates == old(isLoadingTemplates)
    {
      selectedTemplate := id;
    }

    /** `addContact`: the contact the server created goes to the front; a failure escapes and changes nothing. */
    method AddContact(created: Settled<Contact>) returns (thrown: Option<string>)
      modifies this
      ensures thrown == ThrownBy(created)
      ensures contacts == (if created.Resolved? then [created.value] + old(contacts) else old(contacts))
      ensures created.Resolved? ==> |contacts| == |old(contacts)| + 1 && contacts[0] == created.value
      ensures templates == old(templates) && selectedContacts == old(selectedContacts) && selectedTemplate == old(selectedTemplate)
      ensures isLoadingContacts == old(isLoadingContacts) && isLoadingTemplates == old(isLoadingTemplates)
    {
      if created.Rejected? {
        return Some(created.reason);
      }
      contacts := [created.value] + contacts;
      thrown := None;
    }

    /**
     * `deleteContact`, optimistic: the contact and its selection go before the call; if the call
     * fails only the contact list is put back and the error escapes, so the selection stays without it.
     */
    method DeleteContact(id: string, response: Settled<()>) returns (thrown: Option<string>)
      modifies this
      ensures thrown == ThrownBy(response)
      ensures contacts == (if response.Resolved? then WithoutContact(old(contacts), id) else old(contacts))
      ensures selectedContacts == WithoutId(old(selectedContacts), id) && id !in selectedContacts
      ensures templates == old(templates) && selectedTemplate == old(selectedTemplate)
      ensures isLoadingContacts == old(isLoadingContacts) && isLoadingTemplates == old(isLoadingTemplates)
    {
      var previous := contacts;
      contacts := WithoutContact(contacts, id);
      selectedContacts := WithoutId(selectedContacts, id);
      if response.Rejected? {
        contacts := previous;
        return Some(response.reason);
      }
      thrown := None;
    }

    /**
     * `importContacts`: the bulk call, then a refetch that replaces the list. A failure of either
     * call escapes with the list unchanged; the loading flag is off afterwards in every case.
     */
    method ImportContacts(bulk: Settled<()>, refetch: Settled<Payload>) returns (thrown: Option<string>)
      modifies this
      ensures thrown == (if bulk.Rejected? then Some(bulk.reason) else ThrownBy(refetch))
      ensures contacts == (if bulk.Resolved? && refetch.Resolved? then ContactsFrom(refetch.value) else old(contacts))
      ensures !isLoadingContacts
      ensures templates == old(templates) && selectedContacts == old(selectedContacts)
      ensures selectedTemplate == old(selectedTemplate) && isLoadingTemplates == old(isLoadingTemplates)
    {
      isLoadingContacts := true;
      if bulk.Rejected? {
        thrown := Some(bulk.reason);
      } else if refetch.Rejected? {
        thrown := Some(refetch.reason);
      } else {
        contacts := ContactsFrom(refetch.value);
        thrown := None;
      }
      isLoadingContacts := false;
    }

    /** `addTemplate`: the created template goes to the front. */
    method AddTemplate(created: Settled<EmailTemplate>) returns (thrown: Option<string>)
      modifies this
      ensures thrown == ThrownBy(created)
      ensures templates == (if created.Resolved? then [created.value] + old(templates) else old(templates))
      ensures contacts == old(contacts) && selectedContacts == old(selectedContacts) && selectedTemplate == old(selectedTemplate)
      ensures isLoadingContacts == old(isLoadingContacts) && isLoadingTemplates == old(isLoadingTemplates)
    {
      if created.Rejected? {
        return Some(created.reason);
      }
      templates := [created.value] + templates;
      thrown := None;
    }

    /** `editTemplate`: every template with that id becomes the server's version; length and order stay. */
    method EditTemplate(id: string, updated: Settled<EmailTemplate>) returns (thrown: Option<string>)
      modifies this
      ensures thrown == ThrownBy(updated)
      ensures templates == (if updated.Resolved? then ReplaceTemplate(old(templates), id, updated.value) else old(templates))
      ensures |templates| == |old(templates)|
      ensures contacts == old(contacts) && selectedContacts == old(selectedContacts) && selectedTemplate == old(selectedTemplate)
      ensures isLoadingContacts == old(isLoadingContacts) && isLoadingTemplates == old(isLoadingTemplates)
    {
      if updated.Rejected? {
        return Some(updated.reason);
      }
      templates := ReplaceTemplate(templates, id, updated.value);
      thrown := None;
    }

    /**
     * `deleteTemplate`, not optimistic: nothing changes unless the call succeeds; then the template
     * goes and the selection is cleared exactly when it was that template.
     */
    method DeleteTemplate(id: string, response: Settled<()>) returns (thrown: Option<string>)
      modifies this
      ensures thrown == ThrownBy(response)
      ensures templates == (if response.Resolved? then WithoutTemplate(old(templates), id) else old(templates))
      ensures selectedTemplate == (if response.Resolved? then ClearIfSelected(old(selectedTemplate), id) else old(selectedTemplate))
      ensures contacts == old(contacts) && selectedContacts == old(selectedContacts)
      ensures isLoadingContacts == old(isLoadingContacts) && isLoadingTemplates == old(isLoadingTemplates)
    {
      if response.Rejected? {
        return Some(response.reason);
      }
      templates := WithoutTemplate(templates, id);
      selectedTemplate := ClearIfSelected(selectedTemplate, id);
      thrown := None;
    }
  }
}
