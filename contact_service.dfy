/**
 * `ContactService` (server/services/contacts.js): list, create, bulk upsert by e-mail and delete
 * over the `contacts` table. `email` carries the table's unique constraint, which both the
 * plain insert (as an error) and the upsert (`ON CONFLICT (email)`) rely on.
 */
module ContactService {
  import opened Wrappers
  import opened Types
  import opened ServerDb
  import Seqs

  /** The four fields `create` and `bulkCreate` destructure from each input. */
  datatype ContactData = ContactData(companyName: string, email: string, contactPerson: Option<string>, phone: Option<string>)

  /** What PostgreSQL throws when an INSERT repeats an e-mail (SQLSTATE 23505). */
  const UniqueViolation: Error := Error("duplicate key value violates unique constraint \"contacts_email_key\"", None, Some("23505"))

  /** The row an INSERT of `d` creates: the table defaults give status `new` and no date or notes. */
  function NewRow(t: Tables, d: ContactData): ContactRow
  {
    ContactRow(t.clock, d.companyName, d.email, d.contactPerson, d.phone, Status.New, None, None, t.clock)
  }

  /** The position of the row holding `email`, if any. */
  function FindByEmail(cs: seq<ContactRow>, email: string): (r: Option<nat>)
    ensures r.None? <==> forall c :: c in cs ==> c.email != email
    ensures r.Some? ==> r.value < |cs| && cs[r.value].email == email
  {
    if |cs| == 0 then None
    else if cs[0].email == email then Some(0)
    else
      assert forall c :: c in cs <==> c == cs[0] || c in cs[1..];
      match FindByEmail(cs[1..], email)
      case None => None
      case Some(k) => Some(k + 1)
  }

  /** `getAll()`: `SELECT * FROM contacts ORDER BY created_at DESC`, one statement. */
  function GetAll(t: Tables, fault: Fault): (o: Outcome<seq<ContactRow>>)
    ensures o.tables == t
    ensures o.result.Err? <==> Fails(fault, 0)
    ensures o.result.Ok? ==> multiset(o.result.value) == multiset(t.contacts)
    ensures o.result.Ok? ==> |o.result.value| == |t.contacts|
                             && forall i :: 0 <= i < |t.contacts| ==> o.result.value[i] == t.contacts[|t.contacts| - 1 - i]
  {
    if Fails(fault, 0) then Outcome(t, Err(fault.error)) else Outcome(t, Ok(Seqs.Reverse(t.contacts)))
  }

  /** `create(data)`: one INSERT, which the unique constraint rejects for a known e-mail. */
  function Create(t: Tables, d: ContactData, fault: Fault): (o: Outcome<ContactRow>)
    ensures o.tables.templates == t.templates && o.tables.messages == t.messages
    ensures o.result.Err? ==> o.tables == t
    ensures o.result.Ok? <==> !Fails(fault, 0) && forall c :: c in t.contacts ==> c.email != d.email
    ensures !Fails(fault, 0) && (exists c :: c in t.contacts && c.email == d.email) ==> o.result == Err(UniqueViolation)
    ensures o.result.Ok? ==> (o.tables.contacts == t.contacts + [o.result.value]
                              && o.result.value == NewRow(t, d) && o.tables.clock == t.clock + 1)
  {
    if Fails(fault, 0) then Outcome(t, Err(fault.error))
    else if FindByEmail(t.contacts, d.email).Some? then Outcome(t, Err(UniqueViolation))
    else
      var row := NewRow(t, d);
      Outcome(t.(contacts := t.contacts + [row], clock := t.clock + 1), Ok(row))
  }

  /**
   * `INSERT ... ON CONFLICT (email) DO UPDATE SET company_name = EXCLUDED.company_name RETURNING *`:
   * a new e-mail inserts a row, a known one only gets the new company name.
   */
  function Upsert(t: Tables, d: ContactData): (r: (Tables, ContactRow))
    ensures r.0.templates == t.templates && r.0.messages == t.messages
    ensures r.1.email == d.email && r.1.companyName == d.companyName
    ensures r.1 in r.0.contacts
    ensures (forall c :: c in t.contacts ==> c.email != d.email) ==>
              r.1 == NewRow(t, d) && r.0.contacts == t.contacts + [r.1] && r.0.clock == t.clock + 1
    ensures forall k :: 0 <= k < |t.contacts| && t.contacts[k].email == d.email && Valid(t) ==>
              r.1 == t.contacts[k].(companyName := d.companyName) && r.0.contacts == t.contacts[k := r.1] && r.0.clock == t.clock
  {
    match FindByEmail(t.contacts, d.email)
    case None =>
      var row := NewRow(t, d);
      (t.(contacts := t.contacts + [row], clock := t.clock + 1), row)
    case Some(k) =>
      var row := t.contacts[k].(companyName := d.companyName);
      assert t.contacts[k := row][k] == row;
      (t.(contacts := t.contacts[k := row]), row)
  }

  /** The loop of `bulkCreate(contacts)`: statement `i` upserts input `i`; the results in input order. */
  function BulkCreate(t: Tables, inputs: seq<ContactData>, fault: Fault): Outcome<seq<ContactRow>>
    decreases |inputs|
  {
    if |inputs| == 0 then Outcome(t, Ok([]))
    else
      var prev := BulkCreate(t, inputs[..|inputs| - 1], fault);
      if prev.result.Err? then prev
      else if Fails(fault, |inputs| - 1) then Outcome(prev.tables, Err(fault.error))
      else
        var (t1, row) := Upsert(prev.tables, inputs[|inputs| - 1]);
        Outcome(t1, Ok(prev.result.value + [row]))
  }

  /** `delete(id)`: one DELETE; `{ success: true }` whether or not a row matched. */
  function Delete(t: Tables, id: nat, fault: Fault): (o: Outcome<Ack>)
    ensures o.tables.templates == t.templates && o.tables.messages == t.messages && o.tables.clock == t.clock
    ensures o.result.Ok? <==> !Fails(fault, 0)
    ensures o.result.Ok? ==> o.result.value == Ack(true) && forall c :: c in o.tables.contacts <==> c in t.contacts && c.id != id
    ensures o.result.Err? ==> o.tables == t
  {
    if Fails(fault, 0) then Outcome(t, Err(fault.error))
    else Outcome(t.(contacts := Seqs.Filter(t.contacts, (c: ContactRow) => c.id != id)), Ok(Ack(true)))
  }

  // ---- properties of the specification ----

  /** `getAll` lists the newest contact first. */
  lemma GetAllNewestFirst(t: Tables, fault: Fault)
    requires Valid(t)
    ensures var o := GetAll(t, fault);
            o.result.Ok? ==> forall i, j :: 0 <= i < j < |o.result.value| ==> o.result.value[i].createdAt > o.result.value[j].createdAt
  {
    var o := GetAll(t, fault);
    if o.result.Ok? {
      var r := o.result.value;
      forall i, j | 0 <= i < j < |r| ensures r[i].createdAt > r[j].createdAt {
        assert r[i] == t.contacts[|r| - 1 - i] && r[j] == t.contacts[|r| - 1 - j];
      }
    }
  }

  /** Overwriting one row's company name keeps ids, stamps and e-mails as they were. */
  lemma RenameKeepsValid(cs: seq<ContactRow>, clock: nat, k: nat, name: string)
    requires ContactsValid(cs, clock) && k < |cs|
    ensures ContactsValid(cs[k := cs[k].(companyName := name)], clock)
  {
    var r := cs[k := cs[k].(companyName := name)];
    forall i | 0 <= i < |r| ensures r[i].id == cs[i].id && r[i].createdAt == cs[i].createdAt && r[i].email == cs[i].email {
    }
  }

  /** An upsert keeps ids, stamps and e-mails distinct and increasing. */
  lemma UpsertKeepsValid(t: Tables, d: ContactData)
    requires Valid(t)
    ensures Valid(Upsert(t, d).0)
  {
    match FindByEmail(t.contacts, d.email)
    case None =>
      assert Upsert(t, d).0.contacts == t.contacts + [NewRow(t, d)];
    case Some(k) =>
      RenameKeepsValid(t.contacts, t.clock, k, d.companyName);
      assert Upsert(t, d).0 == t.(contacts := t.contacts[k := t.contacts[k].(companyName := d.companyName)]);
  }

  /** A plain insert keeps the contact table well formed: a fresh e-mail gets the next id and stamp. */
  lemma CreateKeepsValid(t: Tables, d: ContactData, fault: Fault)
    requires Valid(t)
    ensures Valid(Create(t, d, fault).tables)
  {
    if Create(t, d, fault).result.Ok? {
      UpsertKeepsValid(t, d);
    }
  }

  /** An upsert leaves every row of another e-mail where it was. */
  lemma UpsertKeepsOthers(t: Tables, d: ContactData, c: ContactRow)
    requires Valid(t) && c in t.contacts && c.email != d.email
    ensures c in Upsert(t, d).0.contacts
  {
    var k :| 0 <= k < |t.contacts| && t.contacts[k] == c;
    match FindByEmail(t.contacts, d.email)
    case None =>
      assert Upsert(t, d).0.contacts[k] == c;
    case Some(m) =>
      assert m != k;
      assert Upsert(t, d).0.contacts[k] == c;
  }

  /**
   * `bulkCreate` succeeds exactly when none of its statements fails; it then returns one row per
   * input, in input order, carrying that input's e-mail and company name.
   */
  lemma {:induction false} BulkResults(t: Tables, inputs: seq<ContactData>, fault: Fault)
    ensures var o := BulkCreate(t, inputs, fault);
            && (o.result.Ok? <==> !(fault.FailAt? && fault.step < |inputs|))
            && (o.result.Err? ==> o.result.error == fault.error)
            && (o.result.Ok? ==> (|o.result.value| == |inputs|
                                  && forall i :: 0 <= i < |inputs| ==>
                                       o.result.value[i].email == inputs[i].email && o.result.value[i].companyName == inputs[i].companyName))
            && o.tables.templates == t.templates && o.tables.messages == t.messages
    decreases |inputs|
  {
    if |inputs| > 0 {
      var n := |inputs| - 1;
      var prev := BulkCreate(t, inputs[..n], fault);
      BulkLast(t, inputs, fault);
      BulkResults(t, inputs[..n], fault);
      if prev.result.Ok? && !Fails(fault, n) {
        var row := Upsert(prev.tables, inputs[n]).1;
        RowsAppend(prev.result.value, row, inputs);
      }
    }
  }

  /** The last iteration of a non-empty input list. */
  lemma BulkLast(t: Tables, inputs: seq<ContactData>, fault: Fault)
    requires |inputs| > 0
    ensures var n := |inputs| - 1;
            var prev := BulkCreate(t, inputs[..n], fault);
            BulkCreate(t, inputs, fault)
              == if prev.result.Err? then prev
                 else if Fails(fault, n) then Outcome(prev.tables, Err(fault.error))
                 else Outcome(Upsert(prev.tables, inputs[n]).0, Ok(prev.result.value + [Upsert(prev.tables, inputs[n]).1]))
  {
  }

  /** Rows matching all inputs but the last, followed by a row matching the last. */
  lemma RowsAppend(rows: seq<ContactRow>, row: ContactRow, inputs: seq<ContactData>)
    requires |inputs| > 0 && |rows| == |inputs| - 1
    requires forall i :: 0 <= i < |rows| ==>
               rows[i].email == inputs[..|inputs| - 1][i].email && rows[i].companyName == inputs[..|inputs| - 1][i].companyName
    requires row.email == inputs[|inputs| - 1].email && row.companyName == inputs[|inputs| - 1].companyName
    ensures var r := rows + [row];
            |r| == |inputs|
            && forall i :: 0 <= i < |inputs| ==> r[i].email == inputs[i].email && r[i].companyName == inputs[i].companyName
  {
    var r := rows + [row];
    forall i | 0 <= i < |inputs| ensures r[i].email == inputs[i].email && r[i].companyName == inputs[i].companyName {
      if i < |rows| {
        assert r[i] == rows[i] && inputs[..|inputs| - 1][i] == inputs[i];
      }
    }
  }

  /** The table stays well formed through the whole batch; in particular e-mails stay unique. */
  lemma {:induction false} BulkKeepsValid(t: Tables, inputs: seq<ContactData>, fault: Fault)
    requires Valid(t)
    ensures Valid(BulkCreate(t, inputs, fault).tables)
    decreases |inputs|
  {
    if |inputs| > 0 {
      var front := inputs[..|inputs| - 1];
      BulkKeepsValid(t, front, fault);
      var prev := BulkCreate(t, front, fault);
      if prev.result.Ok? && !Fails(fault, |inputs| - 1) {
        UpsertKeepsValid(prev.tables, inputs[|inputs| - 1]);
      }
    }
  }

  /**
   * After a successful batch, the company stored for each e-mail is the one given by the last
   * input with that e-mail: a later duplicate overwrites an earlier one.
   */
  lemma {:induction false} LastDuplicateWins(t: Tables, inputs: seq<ContactData>, fault: Fault, i: nat)
    requires Valid(t) && BulkCreate(t, inputs, fault).result.Ok?
    requires i < |inputs| && forall j :: i < j < |inputs| ==> inputs[j].email != inputs[i].email
    ensures exists c :: c in BulkCreate(t, inputs, fault).tables.contacts
                     && c.email == inputs[i].email && c.companyName == inputs[i].companyName
    decreases |inputs|
  {
    var front := inputs[..|inputs| - 1];
    var last := inputs[|inputs| - 1];
    var prev := BulkCreate(t, front, fault);
    assert prev.result.Ok?;
    var (t1, row) := Upsert(prev.tables, last);
    if i == |inputs| - 1 {
      assert row in t1.contacts;
    } else {
      LastDuplicateWins(t, front, fault, i);
      BulkKeepsValid(t, front, fault);
      var c :| c in prev.tables.contacts && c.email == inputs[i].email && c.companyName == inputs[i].companyName;
      UpsertKeepsOthers(prev.tables, last, c);
    }
  }

  /** On an e-mail already stored, the upsert keeps the stored person, phone, status, date and notes. */
  lemma ConflictKeepsOtherColumns(t: Tables, d: ContactData, k: nat)
    requires Valid(t) && k < |t.contacts| && t.contacts[k].email == d.email
    ensures var row := Upsert(t, d).1;
            && row.contactPerson == t.contacts[k].contactPerson && row.phone == t.contacts[k].phone
            && row.status == t.contacts[k].status && row.lastContacted == t.contacts[k].lastContacted
            && row.notes == t.contacts[k].notes && row.id == t.contacts[k].id
  {
  }

  /** A plain insert of a stored e-mail fails and leaves the table as it was. */
  lemma CreateDuplicateFails(t: Tables, d: ContactData, k: nat)
    requires k < |t.contacts| && t.contacts[k].email == d.email
    ensures Create(t, d, NoFault) == Outcome(t, Err(UniqueViolation))
  {
    assert t.contacts[k] in t.contacts;
  }

  /** Deleting keeps the remaining rows in order, so the table stays well formed. */
  lemma DeleteKeepsValid(t: Tables, id: nat, fault: Fault)
    requires Valid(t)
    ensures Valid(Delete(t, id, fault).tables)
  {
    if !Fails(fault, 0) {
      var p := (c: ContactRow) => c.id != id;
      Seqs.FilterIsSubsequence(t.contacts, p);
      OrderedSubsequence(Seqs.Filter(t.contacts, p), t.contacts, t.clock);
    }
  }

  /** A subsequence of a well-formed contact table is well formed. */
  lemma OrderedSubsequence(r: seq<ContactRow>, s: seq<ContactRow>, clock: nat)
    requires Seqs.IsSubsequence(r, s) && ContactsValid(s, clock)
    ensures ContactsValid(r, clock)
  {
    var rel := (a: ContactRow, b: ContactRow) => a.id < b.id && a.createdAt < b.createdAt && a.email != b.email;
    Seqs.SubsequencePairwise(r, s, rel);
    Seqs.SubsequenceMembers(r, s);
    forall i | 0 <= i < |r| ensures r[i].id < clock && r[i].createdAt < clock {
      assert r[i] in s;
    }
  }

  // ---- the service methods, run in place ----

  method GetAllOn(db: Db, fault: Fault) returns (r: Result<seq<ContactRow>, Error>)
    ensures r == GetAll(db.Snapshot(), fault).result
  {
    if Fails(fault, 0) {
      return Err(fault.error);
    }
    r := Ok(Seqs.Reverse(db.contacts));
  }

  method CreateOn(db: Db, d: ContactData, fault: Fault) returns (r: Result<ContactRow, Error>)
    modifies db
    ensures Outcome(db.Snapshot(), r) == Create(old(db.Snapshot()), d, fault)
  {
    if Fails(fault, 0) {
      return Err(fault.error);
    }
    if FindByEmail(db.contacts, d.email).Some? {
      return Err(UniqueViolation);
    }
    var row := NewRow(db.Snapshot(), d);
    db.contacts := db.contacts + [row];
    db.clock := db.clock + 1;
    r := Ok(row);
  }

  method BulkCreateOn(db: Db, inputs: seq<ContactData>, fault: Fault) returns (r: Result<seq<ContactRow>, Error>)
    modifies db
    ensures Outcome(db.Snapshot(), r) == BulkCreate(old(db.Snapshot()), inputs, fault)
  {
    ghost var start := db.Snapshot();
    var results: seq<ContactRow> := [];
    var i := 0;
    while i < |inputs|
      invariant 0 <= i <= |inputs|
      invariant BulkCreate(start, inputs[..i], fault) == Outcome(db.Snapshot(), Ok(results))
    {
      assert inputs[..i + 1][..i] == inputs[..i];
      if Fails(fault, i) {
        BulkErrorSticks(start, inputs, i + 1, fault);
        return Err(fault.error);
      }
      var (t1, row) := Upsert(db.Snapshot(), inputs[i]);
      db.contacts, db.clock := t1.contacts, t1.clock;
      results := results + [row];
      i := i + 1;
    }
    assert inputs[..i] == inputs;
    r := Ok(results);
  }

  /** Once a statement of the batch has failed, the remaining inputs change nothing. */
  lemma {:induction false} BulkErrorSticks(t: Tables, inputs: seq<ContactData>, n: nat, fault: Fault)
    requires n <= |inputs| && BulkCreate(t, inputs[..n], fault).result.Err?
    ensures BulkCreate(t, inputs, fault) == BulkCreate(t, inputs[..n], fault)
    decreases |inputs| - n
  {
    if n < |inputs| {
      var front := inputs[..|inputs| - 1];
      assert front[..n] == inputs[..n];
      BulkErrorSticks(t, front, n, fault);
    } else {
      assert inputs[..n] == inputs;
    }
  }

  method DeleteOn(db: Db, id: nat, fault: Fault) returns (r: Result<Ack, Error>)
    modifies db
    ensures Outcome(db.Snapshot(), r) == Delete(old(db.Snapshot()), id, fault)
  {
    if Fails(fault, 0) {
      return Err(fault.error);
    }
    db.contacts := Seqs.Filter(db.contacts, (c: ContactRow) => c.id != id);
    r := Ok(Ack(true));
  }
}
