/**
 * The contact list view (src/components/contacts/ContactsList.tsx): the search filter, the
 * add-contact guard, the header checkbox, and the CSV import that turns parsed rows into new
 * contacts. `toLowerCase` is a parameter `lower` (its Unicode case mapping is not modelled); CSV
 * parsing itself is not modelled, the rows it produces are the input.
 */
module ContactsList {
  import opened Wrappers
  import opened Types
  import opened ClientLists
  import Seqs
  import TemplateText

  // ---------------------------------------------------------------------------------------------
  // Search.

  /** `s.includes(q)`: `q` occurs in `s` at some position. */
  predicate Includes(s: string, q: string)
    decreases |s|
  {
    q <= s || (|s| > 0 && Includes(s[1..], q))
  }

  lemma {:induction false} IncludesAt(s: string, q: string, i: nat)
    requires TemplateText.OccursAt(s, q, i)
    ensures Includes(s, q)
    decreases i
  {
    if i > 0 {
      assert s[1..][i - 1..i - 1 + |q|] == s[i..i + |q|];
      IncludesAt(s[1..], q, i - 1);
    }
  }

  /** `Includes` is exactly "`q` occurs in `s` at some position". */
  lemma {:induction false} IncludesIff(s: string, q: string)
    ensures Includes(s, q) <==> exists i: nat :: TemplateText.OccursAt(s, q, i)
    decreases |s|
  {
    if Includes(s, q) {
      if q <= s {
        assert s[0..|q|] == q;
        assert TemplateText.OccursAt(s, q, 0);
      } else {
        IncludesIff(s[1..], q);
        var i: nat :| TemplateText.OccursAt(s[1..], q, i);
        assert s[i + 1..i + 1 + |q|] == s[1..][i..i + |q|];
        assert TemplateText.OccursAt(s, q, i + 1);
      }
    }
    if exists i: nat :: TemplateText.OccursAt(s, q, i) {
      var i: nat :| TemplateText.OccursAt(s, q, i);
      IncludesAt(s, q, i);
    }
  }

  /** The filter predicate: the lower-cased query occurs in the company name, the email, or a present contact person. */
  predicate Matches(c: Contact, query: string, lower: string -> string)
  {
    var q := lower(query);
    Includes(lower(c.companyName), q) || Includes(lower(c.email), q)
      || (c.contactPerson.Some? && Includes(lower(c.contactPerson.value), q))
  }

  function MatchesQuery(query: string, lower: string -> string): Contact -> bool
  {
    c => Matches(c, query, lower)
  }

  /** `filteredContacts`: the matching contacts, in list order. */
  function FilteredContacts(cs: seq<Contact>, query: string, lower: string -> string): (r: seq<Contact>)
    ensures forall c :: c in r <==> c in cs && Matches(c, query, lower)
    ensures Seqs.IsSubsequence(r, cs)
    ensures multiset(r) <= multiset(cs)
  {
    Seqs.FilterIsSubsequence(cs, MatchesQuery(query, lower));
    Seqs.Filter(cs, MatchesQuery(query, lower))
  }

  /** An empty search box keeps every contact (`"".toLowerCase()` is `""`, which every string includes). */
  lemma EmptyQueryKeepsAll(cs: seq<Contact>, lower: string -> string)
    requires lower("") == ""
    ensures FilteredContacts(cs, "", lower) == cs
  {
    forall c | c in cs ensures MatchesQuery("", lower)(c) {
      assert "" <= lower(c.companyName);
    }
    Seqs.FilterKeepsAll(cs, MatchesQuery("", lower));
  }

  // ---------------------------------------------------------------------------------------------
  // The add-contact form.

  /** The dialog's form state: five text fields, all strings. */
  datatype ContactForm = ContactForm(companyName: string, email: string, contactPerson: string, phone: string, notes: string)

  const EmptyForm: ContactForm := ContactForm("", "", "", "", "")

  /** What `handleAddContact` hands to `onAddContact`: the form as it is, empty optional fields included. */
  function FormInput(f: ContactForm): (c: ContactInput)
    ensures c.companyName == f.companyName && c.email == f.email
    ensures c.contactPerson == Some(f.contactPerson) && c.phone == Some(f.phone) && c.notes == Some(f.notes)
    ensures c.lastContacted.None?
  {
    ContactInput(f.companyName, f.email, Some(f.contactPerson), Some(f.phone), None, Some(f.notes))
  }

  /** `handleAddContact`: no call when the company name or the email is empty. */
  function AddContactCall(f: ContactForm): (call: Option<ContactInput>)
    ensures call.None? <==> f.companyName == "" || f.email == ""
    ensures call.Some? ==> call.value == FormInput(f)
  {
    if f.companyName == "" || f.email == "" then None else Some(FormInput(f))
  }

  /** The header checkbox: checked when as many ids are selected as there are contacts, and there is at least one. */
  predicate HeaderChecked(selected: seq<string>, cs: seq<Contact>)
  {
    |selected| == |cs| && |cs| > 0
  }

  /** Clicking the header checkbox (`onSelectAll`) flips whether it is checked, on a non-empty list. */
  lemma HeaderClickFlips(selected: seq<string>, cs: seq<Contact>)
    requires |cs| > 0
    ensures HeaderChecked(SelectAll(selected, cs), cs) <==> !HeaderChecked(selected, cs)
    ensures HeaderChecked(selected, cs) ==> SelectAll(selected, cs) == []
    ensures !HeaderChecked(selected, cs) ==> SelectAll(selected, cs) == Ids(cs)
  {
  }

  // ---------------------------------------------------------------------------------------------
  // CSV import.

  /** A parsed CSV row: header name to cell text. */
  type Row = map<string, string>

  function Cell(row: Row, key: string): Option<string>
  {
    if key in row then Some(row[key]) else None
  }

  /**
   * `row[k1] || row[k2] || ... || row[kn]`: the first truthy cell, or, when there is none, whatever
   * the last key gave (missing or empty).
   */
  function FirstTruthy(row: Row, keys: seq<string>): (r: Option<string>)
    requires |keys| > 0
    ensures Truthy(r) <==> exists i :: 0 <= i < |keys| && Truthy(Cell(row, keys[i]))
    ensures Truthy(r) ==> exists i :: 0 <= i < |keys| && r == Cell(row, keys[i]) && forall j :: 0 <= j < i ==> !Truthy(Cell(row, keys[j]))
    ensures !Truthy(r) ==> r == Cell(row, keys[|keys| - 1])
    decreases |keys|
  {
    if |keys| == 1 then Cell(row, keys[0])
    else if Truthy(Cell(row, keys[0])) then Cell(row, keys[0])
    else
      var rest := FirstTruthy(row, keys[1..]);
      assert forall i :: 1 <= i < |keys| ==> keys[1..][i - 1] == keys[i];
      rest
  }

  const EmailKeys: seq<string> := ["email", "Email", "EMAIL", "E-mail"]
  const CompanyKeys: seq<string> := ["companyName", "company", "Company", "Компания", "Название"]
  const ContactKeys: seq<string> := ["contactPerson", "contact", "Контакт", "Имя"]
  const PhoneKeys: seq<string> := ["phone", "Phone", "Телефон"]
  const NotesKeys: seq<string> := ["notes", "Notes", "Заметки"]

  /** One row of the `forEach`: a contact exactly when its email and company name both resolve to non-empty text. */
  function RowContact(row: Row): (r: Option<ContactInput>)
    ensures r.Some? <==> Truthy(FirstTruthy(row, EmailKeys)) && Truthy(FirstTruthy(row, CompanyKeys))
    ensures r.Some? ==> r.value.email != "" && r.value.companyName != ""
    ensures r.Some? ==> Some(r.value.email) == FirstTruthy(row, EmailKeys) && Some(r.value.companyName) == FirstTruthy(row, CompanyKeys)
    ensures r.Some? ==> (r.value.contactPerson == FirstTruthy(row, ContactKeys) && r.value.phone == FirstTruthy(row, PhoneKeys)
                         && r.value.notes == FirstTruthy(row, NotesKeys) && r.value.lastContacted.None?)
  {
    var email := FirstTruthy(row, EmailKeys);
    var company := FirstTruthy(row, CompanyKeys);
    if Truthy(email) && Truthy(company) then
      Some(ContactInput(company.value, email.value, FirstTruthy(row, ContactKeys), FirstTruthy(row, PhoneKeys), None, FirstTruthy(row, NotesKeys)))
    else None
  }

  /** What one row pushes: its contact, or nothing. */
  function Pushed(row: Row): (p: seq<ContactInput>)
    ensures |p| <= 1
    ensures forall x :: x in p <==> RowContact(row) == Some(x)
    ensures forall x :: x in p ==> x.email != "" && x.companyName != ""
  {
    if RowContact(row).Some? then [RowContact(row).value] else []
  }

  /** The contacts a run over `rows` pushes, in row order. */
  function ImportedContacts(rows: seq<Row>): (r: seq<ContactInput>)
    ensures |r| <= |rows|
    ensures forall x :: x in r ==> x.email != "" && x.companyName != ""
    decreases |rows|
  {
    if |rows| == 0 then []
    else ImportedContacts(rows[..|rows| - 1]) + Pushed(rows[|rows| - 1])
  }

  /** Every imported contact comes from a row, and every importable row contributes its contact. */
  lemma {:induction false} ImportedFromRows(rows: seq<Row>)
    ensures forall x :: x in ImportedContacts(rows) ==> exists row :: row in rows && RowContact(row) == Some(x)
    ensures forall row :: row in rows && RowContact(row).Some? ==> RowContact(row).value in ImportedContacts(rows)
    decreases |rows|
  {
    if |rows| > 0 {
      var front := rows[..|rows| - 1];
      var last := rows[|rows| - 1];
      ImportedFromRows(front);
      Seqs.LastMembers(rows);
      assert ImportedContacts(rows) == ImportedContacts(front) + Pushed(last);
    }
  }

  /** Importing two files' rows one after the other gives the rows' contacts in order. */
  lemma {:induction false} ImportedAppend(a: seq<Row>, b: seq<Row>)
    ensures ImportedContacts(a + b) == ImportedContacts(a) + ImportedContacts(b)
    decreases |b|
  {
    if |b| == 0 {
      assert a + b == a;
    } else {
      var b' := b[..|b| - 1];
      assert (a + b)[..|a + b| - 1] == a + b';
      assert (a + b)[|a + b| - 1] == b[|b| - 1];
      ImportedAppend(a, b');
    }
  }

  /** A file whose every row has an email and a company imports every row. */
  lemma {:induction false} AllRowsImported(rows: seq<Row>)
    requires forall row :: row in rows ==> RowContact(row).Some?
    ensures |ImportedContacts(rows)| == |rows|
    decreases |rows|
  {
    if |rows| > 0 {
      var front := rows[..|rows| - 1];
      var last := rows[|rows| - 1];
      Seqs.LastMembers(rows);
      AllRowsImported(front);
      assert RowContact(last).Some?;
      assert Pushed(last) == [RowContact(last).value];
      assert ImportedContacts(rows) == ImportedContacts(front) + Pushed(last);
    }
  }

  lemma ImportedStep(rows: seq<Row>, i: nat)
    requires i < |rows|
    ensures ImportedContacts(rows[..i + 1]) == ImportedContacts(rows[..i]) + Pushed(rows[i])
  {
    Seqs.PrefixStep(rows, i);
  }

  /** The body of the `forEach` callback: build the row's contact and push it when it is complete. */
  method PushRow(imported: seq<ContactInput>, row: Row) returns (next: seq<ContactInput>)
    ensures next == imported + Pushed(row)
  {
    var contact := RowContact(row);
    if contact.Some? {
      next := imported + [contact.value];
    } else {
      next := imported;
      assert next == imported + [];
    }
  }

  /** The `forEach`/`push` loop of the `complete` callback. */
  method CollectImports(rows: seq<Row>) returns (imported: seq<ContactInput>)
    ensures imported == ImportedContacts(rows)
  {
    imported := [];
    var i := 0;
    assert rows[..|rows|] == rows;
    while i < |rows|
      invariant 0 <= i <= |rows|
      invariant imported == ImportedContacts(rows[..i])
    {
      ImportedStep(rows, i);
      imported := PushRow(imported, rows[i]);
      i := i + 1;
    }
  }

  /** The `complete` callback: `onImportContacts` is called, with the collected contacts, only when there is at least one. */
  method CompleteImport(rows: seq<Row>) returns (call: Option<seq<ContactInput>>)
    ensures call.Some? <==> |ImportedContacts(rows)| > 0
    ensures call.Some? ==> call.value == ImportedContacts(rows)
  {
    var imported := CollectImports(rows);
    if |imported| > 0 {
      call := Some(imported);
    } else {
      call := None;
    }
  }
}
