/**
 * The campaign dialog: the e-mail preview (`getPreviewText`), the recipients it shows
 * (`selectedContactsList`, `newContacts`), and the `canSend` guard of `handleSend`.
 */
module CampaignSender {
  import opened Wrappers
  import opened Types
  import opened TemplateText
  import Seqs

  const CompanyToken: string := "{{company}}"
  const ContactToken: string := "{{contact}}"
  const EmailToken: string := "{{email}}"
  /** What `{{contact}}` becomes when the contact person is missing or empty. */
  const DefaultGreeting: string := "Уважаемый клиент"

  /** `contact.contactPerson || "Уважаемый клиент"`. */
  function ContactName(c: Contact): string
  {
    if Truthy(c.contactPerson) then c.contactPerson.value else DefaultGreeting
  }

  /** The three passes of the preview, company first, then contact, then e-mail. */
  function PreviewWith(text: string, c: Contact, expand: bool): string
  {
    var afterCompany := Scan(CompanyToken, c.companyName, expand, "", text);
    var afterContact := Scan(ContactToken, ContactName(c), expand, "", afterCompany);
    Scan(EmailToken, c.email, expand, "", afterContact)
  }

  /** `getPreviewText(text, contact)` as written: three `String.prototype.replace` calls. */
  function PreviewText(text: string, c: Contact): string
  {
    PreviewWith(text, c, true)
  }

  /** The preview with literal substitution: the evidently intended behaviour. */
  function LiteralPreviewText(text: string, c: Contact): string
  {
    PreviewWith(text, c, false)
  }

  /** A value the replacement can neither re-scan as a token start nor expand as a `$` pattern. */
  predicate PlainValue(s: string)
  {
    '{' !in s && '$' !in s
  }

  /** Text holding none of the three tokens is shown unchanged. */
  lemma PreviewUnchanged(text: string, c: Contact)
    requires NoOccurrence(text, CompanyToken)
    requires NoOccurrence(text, ContactToken)
    requires NoOccurrence(text, EmailToken)
    ensures PreviewText(text, c) == text
  {
    ScanUnchanged(CompanyToken, c.companyName, true, "", text);
    ScanUnchanged(ContactToken, ContactName(c), true, "", text);
    ScanUnchanged(EmailToken, c.email, true, "", text);
  }

  /** Each pass replaces every occurrence of its token by its value (cut at the token, glue with the value). */
  lemma PreviewPassesCutAndGlue(text: string, c: Contact)
    requires '$' !in c.companyName && '$' !in ContactName(c) && '$' !in c.email
    ensures var afterCompany := Join(Split(text, CompanyToken), c.companyName);
            var afterContact := Join(Split(afterCompany, ContactToken), ContactName(c));
            PreviewText(text, c) == Join(Split(afterContact, EmailToken), c.email)
  {
    ReplaceAllCutsAndGlues(text, CompanyToken, c.companyName);
    var afterCompany := Join(Split(text, CompanyToken), c.companyName);
    ReplaceAllCutsAndGlues(afterCompany, ContactToken, ContactName(c));
    var afterContact := Join(Split(afterCompany, ContactToken), ContactName(c));
    ReplaceAllCutsAndGlues(afterContact, EmailToken, c.email);
  }

  /** The company pass over the all-fields template replaces the one `{{company}}`. */
  lemma AllFieldsCompanyPass(v1: string, expand: bool)
    requires expand ==> '$' !in v1
    ensures Scan(CompanyToken, v1, expand, "", CompanyToken + " " + ContactToken + " " + EmailToken)
         == v1 + " " + ContactToken + " " + EmailToken
  {
    assert 'p' !in ContactToken && 'p' !in EmailToken && CompanyToken[5] == 'p';
    LeadingOfThree(CompanyToken, ContactToken, EmailToken, v1, expand, 5);
  }

  /** The first pass over `t1 t2 t3`, when a character of `t1` occurs in neither other token. */
  lemma LeadingOfThree(t1: string, t2: string, t3: string, v1: string, expand: bool, k: nat)
    requires k < |t1| && t1[k] != ' ' && t1[k] !in t2 && t1[k] !in t3
    requires expand ==> '$' !in v1
    ensures Scan(t1, v1, expand, "", t1 + " " + t2 + " " + t3) == v1 + " " + t2 + " " + t3
  {
    var rest := " " + t2 + " " + t3;
    assert t1 + " " + t2 + " " + t3 == t1 + rest;
    AbsentCharNoOccurrence(rest, t1, k);
    ScanLeading(t1, v1, expand, rest);
    assert v1 + rest == v1 + " " + t2 + " " + t3;
  }

  /** The contact pass then replaces the one `{{contact}}`, which the company value cannot fake. */
  lemma AllFieldsContactPass(v1: string, v2: string, expand: bool)
    requires '{' !in v1
    requires expand ==> '$' !in v2
    ensures Scan(ContactToken, v2, expand, "", v1 + " " + ContactToken + " " + EmailToken)
         == v1 + " " + v2 + " " + EmailToken
  {
    var r2 := " " + EmailToken;
    assert v1 + " " + ContactToken + " " + EmailToken == (v1 + " ") + ContactToken + r2;
    AbsentCharNoOccurrence(r2, ContactToken, 2);
    ScanSingle(ContactToken, v2, expand, v1 + " ", r2);
    assert (v1 + " ") + v2 + r2 == v1 + " " + v2 + " " + EmailToken;
  }

  /** The e-mail pass replaces the final `{{email}}`. */
  lemma AllFieldsEmailPass(v1: string, v2: string, v3: string, expand: bool)
    requires '{' !in v1 && '{' !in v2
    requires expand ==> '$' !in v3
    ensures Scan(EmailToken, v3, expand, "", v1 + " " + v2 + " " + EmailToken) == v1 + " " + v2 + " " + v3
  {
    ScanTrailing(EmailToken, v3, expand, v1 + " " + v2 + " ");
  }

  /**
   * `"{{company}} {{contact}} {{email}}"` shows the company, the contact person (or the default
   * greeting) and the e-mail verbatim, for values that hold no `{` and, for the JavaScript
   * version, no `$`.
   */
  lemma PreviewAllFields(c: Contact, expand: bool)
    requires '{' !in c.companyName && '{' !in c.email
    requires c.contactPerson.Some? ==> '{' !in c.contactPerson.value
    requires expand ==> '$' !in c.companyName && '$' !in c.email
    requires expand && c.contactPerson.Some? ==> '$' !in c.contactPerson.value
    ensures PreviewWith(CompanyToken + " " + ContactToken + " " + EmailToken, c, expand)
         == c.companyName + " "
            + (if Truthy(c.contactPerson) then c.contactPerson.value else DefaultGreeting)
            + " " + c.email
  {
    AllFieldsCompanyPass(c.companyName, expand);
    AllFieldsContactPass(c.companyName, ContactName(c), expand);
    AllFieldsEmailPass(c.companyName, ContactName(c), c.email, expand);
  }

  /** When the company pass leaves neither of the other tokens, the later passes change nothing. */
  lemma LaterPassesIdle(text: string, c: Contact, expand: bool, p1: string)
    requires Scan(CompanyToken, c.companyName, expand, "", text) == p1
    requires NoOccurrence(p1, ContactToken) && NoOccurrence(p1, EmailToken)
    ensures PreviewWith(text, c, expand) == p1
  {
    ScanUnchanged(ContactToken, ContactName(c), expand, "", p1);
    ScanUnchanged(EmailToken, c.email, expand, "", p1);
  }

  /** The contact token alone shows the contact name after all three passes. */
  lemma BareContactPreview(c: Contact)
    requires '$' !in ContactName(c) && '{' !in ContactName(c)
    ensures PreviewText(ContactToken, c) == ContactName(c)
  {
    AbsentCharNoOccurrence(ContactToken, CompanyToken, 5);
    ScanUnchanged(CompanyToken, c.companyName, true, "", ContactToken);
    ScanWhole(ContactToken, ContactName(c), true);
    AbsentCharNoOccurrence(ContactName(c), EmailToken, 0);
    ScanUnchanged(EmailToken, c.email, true, "", ContactName(c));
  }

  /** `{{contact}}` alone becomes the contact person, or the default greeting when it is missing or empty. */
  lemma ContactTokenFallback(c: Contact)
    requires c.contactPerson.Some? ==> PlainValue(c.contactPerson.value)
    ensures PreviewText(ContactToken, c)
         == if Truthy(c.contactPerson) then c.contactPerson.value else DefaultGreeting
  {
    if !Truthy(c.contactPerson) {
      assert '$' !in DefaultGreeting && '{' !in DefaultGreeting;
    }
    BareContactPreview(c);
  }

  /** The company pass of the welcome line. */
  lemma WelcomeCompanyPass(v: string)
    requires '$' !in v
    ensures Scan(CompanyToken, v, true, "", "Welcome to " + CompanyToken) == "Welcome to " + v
  {
    ScanTrailing(CompanyToken, v, true, "Welcome to ");
  }

  /** The test scenario: "Welcome to {{company}}" shows the company name, e.g. "Welcome to Test Company". */
  lemma WelcomePreview(c: Contact)
    requires PlainValue(c.companyName)
    ensures PreviewText("Welcome to " + CompanyToken, c) == "Welcome to " + c.companyName
  {
    WelcomeCompanyPass(c.companyName);
    AbsentCharNoOccurrence("Welcome to " + c.companyName, ContactToken, 0);
    AbsentCharNoOccurrence("Welcome to " + c.companyName, EmailToken, 0);
    LaterPassesIdle("Welcome to " + CompanyToken, c, true, "Welcome to " + c.companyName);
  }

  /** The passes run in order over each other's output: a company named `{{email}}` shows the e-mail. */
  lemma LaterPassesRescan(c: Contact)
    requires c.companyName == EmailToken && PlainValue(c.email)
    ensures PreviewText(CompanyToken, c) == c.email
  {
    AbsentCharNoOccurrence(EmailToken, ContactToken, 2);
    RescanChain(CompanyToken, ContactToken, EmailToken, c.companyName, ContactName(c), c.email);
  }

  /** Three passes over a text that is the first token, whose value is the third token: the third value comes out. */
  lemma RescanChain(t1: string, t2: string, t3: string, v1: string, v2: string, v3: string)
    requires |t1| > 0 && |t2| > 0 && |t3| > 0
    requires v1 == t3 && '$' !in v1 && '$' !in v3 && NoOccurrence(t3, t2)
    ensures Scan(t3, v3, true, "", Scan(t2, v2, true, "", Scan(t1, v1, true, "", t1))) == v3
  {
    ScanWhole(t1, v1, true);
    ScanUnchanged(t2, v2, true, "", v1);
    ScanWhole(t3, v3, true);
  }

  /** As written, a company named `$&` is expanded to the matched token, so the placeholder survives. */
  lemma DollarCompanyKeepsPlaceholder(c: Contact)
    requires c.companyName == "$&"
    ensures PreviewText(CompanyToken, c) == CompanyToken
  {
    assert CompanyToken == CompanyToken + "";
    ScanAtMatch(CompanyToken, c.companyName, true, "", "");
    assert Expand(c.companyName, CompanyToken, "", "") == CompanyToken + Expand("", CompanyToken, "", "");
    var p1 := CompanyToken;
    assert Scan(CompanyToken, c.companyName, true, "", CompanyToken) == p1 + "";
    AbsentCharNoOccurrence(p1, ContactToken, 5);
    ScanUnchanged(ContactToken, ContactName(c), true, "", p1);
    AbsentCharNoOccurrence(p1, EmailToken, 2);
    ScanUnchanged(EmailToken, c.email, true, "", p1);
  }

  /** With literal substitution the same company name is shown as it is. */
  lemma LiteralPreviewShowsCompany(c: Contact)
    requires c.companyName == "$&"
    ensures LiteralPreviewText(CompanyToken, c) == "$&"
  {
    assert CompanyToken == CompanyToken + "";
    ScanAtMatch(CompanyToken, c.companyName, false, "", "");
    var p1 := "$&";
    assert Scan(CompanyToken, c.companyName, false, "", CompanyToken) == p1 + "";
    AbsentCharNoOccurrence(p1, ContactToken, 0);
    ScanUnchanged(ContactToken, ContactName(c), false, "", p1);
    AbsentCharNoOccurrence(p1, EmailToken, 0);
    ScanUnchanged(EmailToken, c.email, false, "", p1);
  }

  /** The literal preview puts every field in verbatim, `$` included. */
  lemma LiteralPreviewAllFields(c: Contact)
    requires '{' !in c.companyName && '{' !in c.email
    requires c.contactPerson.Some? ==> '{' !in c.contactPerson.value
    ensures LiteralPreviewText(CompanyToken + " " + ContactToken + " " + EmailToken, c)
         == c.companyName + " "
            + (if Truthy(c.contactPerson) then c.contactPerson.value else DefaultGreeting)
            + " " + c.email
  {
    PreviewAllFields(c, false);
  }

  /** `selectedContactsList`: the contacts whose id is selected. */
  function SelectedContactsList(contacts: seq<Contact>, selected: seq<string>): seq<Contact>
  {
    Seqs.Filter(contacts, (c: Contact) => c.id in selected)
  }

  /** `newContacts`: the selected contacts that still have status `new`. */
  function NewContacts(selectedList: seq<Contact>): seq<Contact>
  {
    Seqs.Filter(selectedList, (c: Contact) => c.status == New)
  }

  /** The recipients are exactly the selected contacts, in list order; the new ones are a further subsequence. */
  lemma RecipientLists(contacts: seq<Contact>, selected: seq<string>)
    ensures var list := SelectedContactsList(contacts, selected);
      && Seqs.IsSubsequence(list, contacts)
      && (forall c :: c in list <==> c in contacts && c.id in selected)
      && Seqs.IsSubsequence(NewContacts(list), list)
      && (forall c :: c in NewContacts(list) <==> c in contacts && c.id in selected && c.status == New)
  {
    var list := SelectedContactsList(contacts, selected);
    Seqs.FilterIsSubsequence(contacts, (c: Contact) => c.id in selected);
    Seqs.FilterIsSubsequence(list, (c: Contact) => c.status == New);
  }

  /** `templates.find((t) => t.id === selectedTemplate)`: the first template with that id. */
  function FindTemplate(templates: seq<EmailTemplate>, id: Option<string>): (r: Option<EmailTemplate>)
    ensures r.None? <==> forall t :: t in templates ==> Some(t.id) != id
    ensures r.Some? ==> exists k :: 0 <= k < |templates| && templates[k] == r.value && Some(r.value.id) == id
                                    && forall j :: 0 <= j < k ==> Some(templates[j].id) != id
    decreases |templates|
  {
    if |templates| == 0 then None
    else if Some(templates[0].id) == id then Some(templates[0])
    else
      var r := FindTemplate(templates[1..], id);
      assert forall t :: t in templates <==> t == templates[0] || t in templates[1..];
      if r.Some? then
        var k :| 0 <= k < |templates[1..]| && templates[1..][k] == r.value && Some(r.value.id) == id
                 && forall j :: 0 <= j < k ==> Some(templates[1..][j].id) != id;
        assert templates[k + 1] == r.value;
        assert forall j :: 0 <= j < k + 1 ==> Some(templates[j].id) != id by {
          forall j | 0 <= j < k + 1 ensures Some(templates[j].id) != id {
            if j > 0 { assert templates[j] == templates[1..][j - 1]; }
          }
        }
        r
      else r
  }

  /** `canSend`: some contact selected, and a non-empty selected template id that names a template. */
  predicate CanSend(selected: seq<string>, templates: seq<EmailTemplate>, selectedTemplate: Option<string>)
  {
    |selected| > 0 && Truthy(selectedTemplate) && FindTemplate(templates, selectedTemplate).Some?
  }

  lemma CanSendIff(selected: seq<string>, templates: seq<EmailTemplate>, selectedTemplate: Option<string>)
    ensures CanSend(selected, templates, selectedTemplate)
        <==> |selected| > 0 && selectedTemplate.Some? && selectedTemplate.value != ""
             && exists t :: t in templates && t.id == selectedTemplate.value
  {
  }

  datatype CampaignCall = CampaignCall(contactIds: seq<string>, templateId: string)

  /** `handleSend`: the `onSendCampaign` call it makes, if any. */
  function HandleSend(selected: seq<string>, templates: seq<EmailTemplate>, selectedTemplate: Option<string>): (call: Option<CampaignCall>)
    ensures call.Some? <==> CanSend(selected, templates, selectedTemplate)
    ensures call.Some? ==> call.value.contactIds == selected && Some(call.value.templateId) == selectedTemplate
  {
    if !CanSend(selected, templates, selectedTemplate) then None
    else Some(CampaignCall(selected, selectedTemplate.value))
  }
}
