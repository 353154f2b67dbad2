/**
 * The list updaters the client state containers hand to `set`/`setState` (src/store/useAppStore.ts,
 * src/hooks/useContacts.ts, src/hooks/useTemplates.ts): remove by id, replace or patch by id, toggle
 * an id in a selection, select all, and the new entities the hooks build. Ids and timestamps
 * (`generateId()`, `new Date()`) are parameters.
 */
module ClientLists {
  import opened Wrappers
  import opened Types
  import Seqs

  function ContactId(c: Contact): string { c.id }

  /** `contacts.map((c) => c.id)`. */
  function Ids(cs: seq<Contact>): (r: seq<string>)
    ensures |r| == |cs|
    ensures forall i :: 0 <= i < |cs| ==> r[i] == cs[i].id
    ensures forall c :: c in cs ==> c.id in r
  {
    Seqs.Map(cs, ContactId)
  }

  function OtherContact(id: string): Contact -> bool { (c: Contact) => c.id != id }
  function OtherId(id: string): string -> bool { x => x != id }
  function OtherTemplate(id: string): EmailTemplate -> bool { (t: EmailTemplate) => t.id != id }

  /** `contacts.filter((c) => c.id !== id)`. */
  function WithoutContact(cs: seq<Contact>, id: string): (r: seq<Contact>)
    ensures forall c :: c in r <==> c in cs && c.id != id
    ensures multiset(r) <= multiset(cs)
    ensures Seqs.IsSubsequence(r, cs)
    ensures (forall c :: c in cs ==> c.id != id) ==> r == cs
  {
    Seqs.FilterIsSubsequence(cs, OtherContact(id));
    if forall c :: c in cs ==> c.id != id then
      Seqs.FilterKeepsAll(cs, OtherContact(id));
      Seqs.Filter(cs, OtherContact(id))
    else
      Seqs.Filter(cs, OtherContact(id))
  }

  /** `selected.filter((cId) => cId !== id)`: every occurrence of `id` goes, the rest keeps its order. */
  function WithoutId(ids: seq<string>, id: string): (r: seq<string>)
    ensures forall x :: x in r <==> x in ids && x != id
    ensures Seqs.IsSubsequence(r, ids)
    ensures id !in ids ==> r == ids
    ensures Seqs.Distinct(ids) ==> Seqs.Distinct(r)
  {
    Seqs.FilterIsSubsequence(ids, OtherId(id));
    if id !in ids then Seqs.FilterKeepsAll(ids, OtherId(id)); Seqs.Filter(ids, OtherId(id))
    else if Seqs.Distinct(ids) then Seqs.FilterKeepsDistinct(ids, OtherId(id)); Seqs.Filter(ids, OtherId(id))
    else Seqs.Filter(ids, OtherId(id))
  }

  /** `templates.filter((t) => t.id !== id)`. */
  function WithoutTemplate(ts: seq<EmailTemplate>, id: string): (r: seq<EmailTemplate>)
    ensures forall t :: t in r <==> t in ts && t.id != id
    ensures Seqs.IsSubsequence(r, ts)
  {
    Seqs.FilterIsSubsequence(ts, OtherTemplate(id));
    Seqs.Filter(ts, OtherTemplate(id))
  }

  /** `selected === id ? null : selected`. */
  function ClearIfSelected(selected: Option<string>, id: string): (r: Option<string>)
    ensures r.None? <==> selected.None? || selected == Some(id)
    ensures r.Some? ==> r == selected
  {
    if selected == Some(id) then None else selected
  }

  function Replacing(id: string, data: EmailTemplate): EmailTemplate -> EmailTemplate
  {
    (t: EmailTemplate) => if t.id == id then data else t
  }

  /** `templates.map((t) => (t.id === id ? data : t))`: every template with that id becomes `data`. */
  function ReplaceTemplate(ts: seq<EmailTemplate>, id: string, data: EmailTemplate): (r: seq<EmailTemplate>)
    ensures |r| == |ts|
    ensures forall i :: 0 <= i < |ts| && ts[i].id == id ==> r[i] == data
    ensures forall i :: 0 <= i < |ts| && ts[i].id != id ==> r[i] == ts[i]
  {
    Seqs.Map(ts, Replacing(id, data))
  }

  /** `Partial<Omit<EmailTemplate, "id" | "createdAt">>`: a field is either supplied or absent. */
  datatype TemplatePatch = TemplatePatch(name: Option<string>, subject: Option<string>, body: Option<string>)

  /** `{ ...t, ...patch }`. */
  function Patch(t: EmailTemplate, p: TemplatePatch): (r: EmailTemplate)
    ensures r.id == t.id && r.createdAt == t.createdAt
    ensures r.name == p.name.GetOr(t.name)
    ensures r.subject == p.subject.GetOr(t.subject)
    ensures r.body == p.body.GetOr(t.body)
  {
    EmailTemplate(t.id, p.name.GetOr(t.name), p.subject.GetOr(t.subject), p.body.GetOr(t.body), t.createdAt)
  }

  function Patching(id: string, p: TemplatePatch): EmailTemplate -> EmailTemplate
  {
    (t: EmailTemplate) => if t.id == id then Patch(t, p) else t
  }

  /** `prev.map((t) => (t.id === id ? { ...t, ...patch } : t))`. */
  function PatchTemplates(ts: seq<EmailTemplate>, id: string, p: TemplatePatch): (r: seq<EmailTemplate>)
    ensures |r| == |ts|
    ensures forall i :: 0 <= i < |ts| && ts[i].id == id ==> r[i] == Patch(ts[i], p)
    ensures forall i :: 0 <= i < |ts| && ts[i].id != id ==> r[i] == ts[i]
  {
    Seqs.Map(ts, Patching(id, p))
  }

  /** `prev.includes(id) ? prev.filter((cId) => cId !== id) : [...prev, id]`. */
  function Toggle(selected: seq<string>, id: string): (r: seq<string>)
    ensures id in r <==> id !in selected
    ensures forall x :: x != id ==> (x in r <==> x in selected)
    ensures Seqs.Distinct(selected) ==> Seqs.Distinct(r)
    ensures id !in selected ==> r == selected + [id]
  {
    if id in selected then WithoutId(selected, id) else selected + [id]
  }

  /** The "select all" rule: clear when the selection is as long as the list, else select every id in list order. */
  function SelectAll(selected: seq<string>, cs: seq<Contact>): (r: seq<string>)
    ensures r == [] || r == Ids(cs)
    ensures |selected| != |cs| ==> |r| == |cs| && forall c :: c in cs ==> c.id in r
    ensures |selected| == |cs| ==> r == []
  {
    if |selected| == |cs| then [] else Ids(cs)
  }

  /** `{ ...contact, id: generateId(), status: "new", createdAt: new Date() }`. */
  function NewContact(input: ContactInput, id: string, now: int): (c: Contact)
    ensures c.id == id && c.status == New && c.createdAt == now
    ensures c.companyName == input.companyName && c.email == input.email
    ensures c.contactPerson == input.contactPerson && c.phone == input.phone
    ensures c.lastContacted == input.lastContacted && c.notes == input.notes
  {
    Contact(id, input.companyName, input.email, input.contactPerson, input.phone, New, input.lastContacted, input.notes, now)
  }

  /** `importedContacts.map(...)`, one fresh id and one timestamp per input, in input order. */
  function NewContacts(inputs: seq<ContactInput>, ids: seq<string>, stamps: seq<int>): (r: seq<Contact>)
    requires |ids| == |inputs| && |stamps| == |inputs|
    ensures |r| == |inputs|
    ensures forall i :: 0 <= i < |inputs| ==> r[i] == NewContact(inputs[i], ids[i], stamps[i])
  {
    seq(|inputs|, i requires 0 <= i < |inputs| => NewContact(inputs[i], ids[i], stamps[i]))
  }

  /** `{ ...template, id: generateId(), createdAt: new Date() }`. */
  function NewTemplate(input: TemplateInput, id: string, now: int): (t: EmailTemplate)
    ensures t == EmailTemplate(id, input.name, input.subject, input.body, now)
  {
    EmailTemplate(id, input.name, input.subject, input.body, now)
  }

  // ---------------------------------------------------------------------------------------------
  // Properties of the updaters.

  /** Toggling an unselected id twice gives back exactly the selection it started from. */
  lemma ToggleTwiceUnselected(selected: seq<string>, id: string)
    requires id !in selected
    ensures Toggle(Toggle(selected, id), id) == selected
  {
    var once := selected + [id];
    Seqs.FilterAppend(selected, [id], OtherId(id));
    Seqs.FilterKeepsAll(selected, OtherId(id));
    assert Seqs.Filter([id], OtherId(id)) == [];
    assert WithoutId(once, id) == selected;
  }

  /**
   * Toggling a selected id twice restores whether it is selected, keeps every other id's membership,
   * and on a selection without repetitions keeps the same elements (`id` moves to the end).
   */
  lemma ToggleTwiceSelected(selected: seq<string>, id: string)
    requires id in selected
    ensures var r := Toggle(Toggle(selected, id), id);
            && r == WithoutId(selected, id) + [id]
            && (forall x :: x in r <==> x in selected)
            && (Seqs.Distinct(selected) ==> multiset(r) == multiset(selected))
  {
    var r := Toggle(Toggle(selected, id), id);
    if Seqs.Distinct(selected) {
      WithoutOneOccurrence(selected, id);
      assert multiset(r) == multiset(WithoutId(selected, id)) + multiset{id};
    }
  }

  /** The tail of a list of distinct ids is distinct and does not hold the head. */
  lemma DistinctTail(s: seq<string>)
    requires Seqs.Distinct(s) && |s| > 0
    ensures Seqs.Distinct(s[1..]) && s[0] !in s[1..]
  {
    var tail := s[1..];
    forall i, j | 0 <= i < j < |tail| ensures tail[i] != tail[j] {
      assert tail[i] == s[i + 1] && tail[j] == s[j + 1];
    }
    forall k | 0 <= k < |tail| ensures tail[k] != s[0] {
      assert tail[k] == s[k + 1];
    }
  }

  lemma {:induction false} FilterOutOne(s: seq<string>, id: string)
    requires Seqs.Distinct(s) && id in s
    ensures multiset(Seqs.Filter(s, OtherId(id))) + multiset{id} == multiset(s)
    decreases |s|
  {
    var tail := s[1..];
    assert s == [s[0]] + tail;
    DistinctTail(s);
    var rest := Seqs.Filter(tail, OtherId(id));
    assert Seqs.Filter(s, OtherId(id)) == if s[0] == id then rest else [s[0]] + rest;
    if s[0] == id {
      Seqs.FilterKeepsAll(tail, OtherId(id));
    } else {
      FilterOutOne(tail, id);
    }
  }

  /** Removing an id that occurs once takes exactly one element out of the multiset. */
  lemma WithoutOneOccurrence(s: seq<string>, id: string)
    requires Seqs.Distinct(s) && id in s
    ensures multiset(WithoutId(s, id)) + multiset{id} == multiset(s)
  {
    FilterOutOne(s, id);
  }

  /** Pressing "select all" twice from a partial selection ends with nothing selected. */
  lemma SelectAllTwice(selected: seq<string>, cs: seq<Contact>)
    requires |selected| != |cs|
    ensures SelectAll(SelectAll(selected, cs), cs) == []
  {
  }

  /**
   * Why comparing lengths works: a selection without repetitions, drawn from the contacts' ids,
   * that is as long as the contact list selects every contact.
   */
  lemma SelectAllRuleSound(selected: seq<string>, cs: seq<Contact>)
    requires Seqs.Distinct(selected)
    requires forall x :: x in selected ==> x in Ids(cs)
    requires |selected| == |cs|
    ensures forall c :: c in cs ==> c.id in selected
  {
    var ids := Ids(cs);
    var chosen := set x | x in selected;
    var all := set x | x in ids;
    Seqs.DistinctCardinality(selected);
    CardinalityAtMostLength(ids);
    assert chosen <= all;
    Seqs.SubsetOfEqualSize(chosen, all);
    forall c | c in cs ensures c.id in selected {
      assert c.id in all;
    }
  }

  lemma {:induction false} CardinalityAtMostLength<T>(s: seq<T>)
    ensures |set x | x in s| <= |s|
    decreases |s|
  {
    if |s| > 0 {
      CardinalityAtMostLength(s[1..]);
      assert s == [s[0]] + s[1..];
      assert (set x | x in s) == {s[0]} + (set x | x in s[1..]);
    }
  }

  /**
   * The rule only compares lengths: a stale selection of the same length clears the selection
   * although no contact was selected.
   */
  lemma SelectAllComparesLengthsOnly()
    ensures var c := Contact("a", "Acme", "a@acme.test", None, None, New, None, None, 0);
            && "a" !in ["b"]
            && SelectAll(["b"], [c]) == []
  {
  }

  /** Replacing by id twice with the same data is the same as replacing once. */
  lemma ReplaceTemplateIdempotent(ts: seq<EmailTemplate>, id: string, data: EmailTemplate)
    ensures ReplaceTemplate(ReplaceTemplate(ts, id, data), id, data) == ReplaceTemplate(ts, id, data)
  {
  }

  /** Patching an id no template has changes nothing. */
  lemma PatchUnknownId(ts: seq<EmailTemplate>, id: string, p: TemplatePatch)
    requires forall t :: t in ts ==> t.id != id
    ensures PatchTemplates(ts, id, p) == ts
  {
  }

  /** An empty patch changes nothing. */
  lemma EmptyPatch(ts: seq<EmailTemplate>, id: string)
    ensures PatchTemplates(ts, id, TemplatePatch(None, None, None)) == ts
  {
  }

  /** The imported contacts of two batches are those of the joined batch. */
  lemma NewContactsAppend(a: seq<ContactInput>, ia: seq<string>, sa: seq<int>, b: seq<ContactInput>, ib: seq<string>, sb: seq<int>)
    requires |ia| == |a| && |sa| == |a| && |ib| == |b| && |sb| == |b|
    ensures NewContacts(a + b, ia + ib, sa + sb) == NewContacts(a, ia, sa) + NewContacts(b, ib, sb)
  {
  }
}
