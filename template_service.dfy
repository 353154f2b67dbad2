/**
 * `TemplateService` (server/services/templates.js): CRUD over the `templates` table, where update
 * and delete throw an error carrying status 404 when no row matched.
 */
module TemplateService {
  import opened Wrappers
  import opened ServerDb
  import Seqs

  /** The fields `create` and `update` destructure. */
  datatype TemplateData = TemplateData(name: string, subject: string, body: string)

  /** `new Error('Template not found')` with `error.status = 404`. */
  const NotFound: Error := Error("Template not found", Some(404), None)

  /** `SELECT * FROM templates WHERE id = $1`, first row. */
  function FindTemplate(ts: seq<TemplateRow>, id: nat): (r: Option<TemplateRow>)
    ensures r.None? <==> forall x :: x in ts ==> x.id != id
    ensures r.Some? ==> r.value in ts && r.value.id == id
  {
    if |ts| == 0 then None
    else if ts[0].id == id then Some(ts[0])
    else
      assert forall x :: x in ts <==> x == ts[0] || x in ts[1..];
      FindTemplate(ts[1..], id)
  }

  /** `getAll()`: `ORDER BY created_at DESC`. */
  function GetAll(t: Tables, fault: Fault): (o: Outcome<seq<TemplateRow>>)
    ensures o.tables == t
    ensures o.result.Err? <==> Fails(fault, 0)
    ensures o.result.Ok? ==> multiset(o.result.value) == multiset(t.templates)
    ensures o.result.Ok? ==> |o.result.value| == |t.templates|
                             && forall i :: 0 <= i < |t.templates| ==> o.result.value[i] == t.templates[|t.templates| - 1 - i]
  {
    if Fails(fault, 0) then Outcome(t, Err(fault.error)) else Outcome(t, Ok(Seqs.Reverse(t.templates)))
  }

  /** `getById(id)`: the row, or `null` when there is none. */
  function GetById(t: Tables, id: nat, fault: Fault): (o: Outcome<Option<TemplateRow>>)
    ensures o.tables == t
    ensures o.result.Err? <==> Fails(fault, 0)
    ensures o.result.Ok? ==> (o.result.value.None? <==> forall x :: x in t.templates ==> x.id != id)
    ensures o.result.Ok? && o.result.value.Some? ==> o.result.value.value in t.templates && o.result.value.value.id == id
  {
    if Fails(fault, 0) then Outcome(t, Err(fault.error)) else Outcome(t, Ok(FindTemplate(t.templates, id)))
  }

  /** `create({ name, subject, body })`: one INSERT ... RETURNING. */
  function Create(t: Tables, d: TemplateData, fault: Fault): (o: Outcome<TemplateRow>)
    ensures o.tables.contacts == t.contacts && o.tables.messages == t.messages
    ensures o.result.Err? <==> Fails(fault, 0)
    ensures o.result.Err? ==> o.tables == t
    ensures o.result.Ok? ==> (o.result.value.name == d.name && o.result.value.subject == d.subject
                              && o.result.value.body == d.body && o.result.value.id == t.clock
                              && o.tables.templates == t.templates + [o.result.value])
  {
    if Fails(fault, 0) then Outcome(t, Err(fault.error))
    else
      var row := TemplateRow(t.clock, d.name, d.subject, d.body, t.clock);
      Outcome(t.(templates := t.templates + [row], clock := t.clock + 1), Ok(row))
  }

  /** `UPDATE templates SET name = $1, subject = $2, body = $3 WHERE id = $4`. */
  function Rewrite(id: nat, d: TemplateData): TemplateRow -> TemplateRow
  {
    (x: TemplateRow) => if x.id == id then x.(name := d.name, subject := d.subject, body := d.body) else x
  }

  /** The rows `DELETE FROM templates WHERE id = $1` keeps. */
  function NotTemplate(id: nat): TemplateRow -> bool
  {
    (x: TemplateRow) => x.id != id
  }

  /** `update(id, data)`: one UPDATE ... RETURNING; no row returned throws the 404 error. */
  function Update(t: Tables, id: nat, d: TemplateData, fault: Fault): (o: Outcome<TemplateRow>)
    ensures o.tables.contacts == t.contacts && o.tables.messages == t.messages && o.tables.clock == t.clock
    ensures o.result.Err? ==> o.tables == t
    ensures !Fails(fault, 0) ==> (o.result.Err? <==> forall x :: x in t.templates ==> x.id != id)
    ensures !Fails(fault, 0) && o.result.Err? ==> o.result.error == NotFound
    ensures o.result.Ok? ==> (o.result.value.id == id && o.result.value.name == d.name
                              && o.result.value.subject == d.subject && o.result.value.body == d.body
                              && o.result.value in o.tables.templates)
    ensures o.result.Ok? ==> |o.tables.templates| == |t.templates|
    ensures o.result.Ok? ==> forall i :: 0 <= i < |t.templates| ==>
              o.tables.templates[i] == if t.templates[i].id == id
                                       then t.templates[i].(name := d.name, subject := d.subject, body := d.body)
                                       else t.templates[i]
  {
    if Fails(fault, 0) then Outcome(t, Err(fault.error))
    else match FindTemplate(t.templates, id)
      case None => Outcome(t, Err(NotFound))
      case Some(x) =>
        var ts := Seqs.Map(t.templates, Rewrite(id, d));
        var k :| 0 <= k < |t.templates| && t.templates[k] == x;
        assert ts[k] == Rewrite(id, d)(x) && ts[k] in ts;
        Outcome(t.(templates := ts), Ok(Rewrite(id, d)(x)))
  }

  /** `delete(id)`: one DELETE; a row count of 0 throws the 404 error. */
  function Delete(t: Tables, id: nat, fault: Fault): (o: Outcome<Ack>)
    ensures o.tables.contacts == t.contacts && o.tables.messages == t.messages && o.tables.clock == t.clock
    ensures o.result.Err? ==> o.tables == t
    ensures !Fails(fault, 0) ==> (o.result.Err? <==> forall x :: x in t.templates ==> x.id != id)
    ensures !Fails(fault, 0) && o.result.Err? ==> o.result.error == NotFound
    ensures o.result.Ok? ==> (o.result.value == Ack(true)
                              && forall x :: x in o.tables.templates <==> x in t.templates && x.id != id)
  {
    if Fails(fault, 0) then Outcome(t, Err(fault.error))
    else if FindTemplate(t.templates, id).None? then Outcome(t, Err(NotFound))
    else Outcome(t.(templates := Seqs.Filter(t.templates, NotTemplate(id))), Ok(Ack(true)))
  }

  // ---- properties of the specification ----

  /** Updating an unknown id throws the 404 error and changes nothing. */
  lemma UpdateUnknown(t: Tables, id: nat, d: TemplateData)
    requires forall x :: x in t.templates ==> x.id != id
    ensures Update(t, id, d, NoFault) == Outcome(t, Err(NotFound))
  {
  }

  /** Deleting an unknown id throws the 404 error and changes nothing; deleting a known one removes it. */
  lemma DeleteKnownOrUnknown(t: Tables, id: nat)
    ensures var o := Delete(t, id, NoFault);
            && ((forall x :: x in t.templates ==> x.id != id) ==> o == Outcome(t, Err(NotFound)))
            && ((exists x :: x in t.templates && x.id == id) ==>
                  o.result == Ok(Ack(true)) && forall x :: x in o.tables.templates ==> x.id != id)
  {
  }

  /** After an update, `getById` finds the new fields. */
  lemma UpdateThenGet(t: Tables, id: nat, d: TemplateData)
    requires Valid(t) && exists x :: x in t.templates && x.id == id
    ensures var u := Update(t, id, d, NoFault);
            var g := GetById(u.tables, id, NoFault).result;
            u.result.Ok? && g.Ok? && g.value == Some(u.result.value)
  {
    var u := Update(t, id, d, NoFault);
    assert !Fails(NoFault, 0);
    assert u.result.Ok?;
    UpdateKeepsValid(t, id, d, NoFault);
    var g := GetById(u.tables, id, NoFault).result;
    assert g.Ok? && g.value.Some?;
    SameIdSameRow(u.tables.templates, u.tables.clock, g.value.value, u.result.value);
  }

  /** In a well-formed table no two rows share an id. */
  lemma SameIdSameRow(ts: seq<TemplateRow>, clock: nat, a: TemplateRow, b: TemplateRow)
    requires TemplatesValid(ts, clock) && a in ts && b in ts && a.id == b.id
    ensures a == b
  {
    var i :| 0 <= i < |ts| && ts[i] == a;
    var j :| 0 <= j < |ts| && ts[j] == b;
    assert i == j;
  }


  /** `getAll` lists the newest template first. */
  lemma GetAllNewestFirst(t: Tables, fault: Fault)
    requires Valid(t)
    ensures var o := GetAll(t, fault);
            o.result.Ok? ==> forall i, j :: 0 <= i < j < |o.result.value| ==> o.result.value[i].createdAt > o.result.value[j].createdAt
  {
    var o := GetAll(t, fault);
    if o.result.Ok? {
      var r := o.result.value;
      forall i, j | 0 <= i < j < |r| ensures r[i].createdAt > r[j].createdAt {
        assert r[i] == t.templates[|r| - 1 - i] && r[j] == t.templates[|r| - 1 - j];
      }
    }
  }

  /** Create keeps the template table well formed. */
  lemma CreateKeepsValid(t: Tables, d: TemplateData, fault: Fault)
    requires Valid(t)
    ensures Valid(Create(t, d, fault).tables)
  {
  }

  /** Update keeps ids and stamps, so the template table stays well formed. */
  lemma UpdateKeepsValid(t: Tables, id: nat, d: TemplateData, fault: Fault)
    requires Valid(t)
    ensures Valid(Update(t, id, d, fault).tables)
  {
    var u := Update(t, id, d, fault);
    if u.result.Ok? {
      RewriteKeepsValid(t.templates, u.tables.templates, t.clock);
      assert u.tables == t.(templates := u.tables.templates);
    }
  }

  /** Rewriting text columns keeps ids and stamps, so the table stays well formed. */
  lemma RewriteKeepsValid(ts: seq<TemplateRow>, us: seq<TemplateRow>, clock: nat)
    requires TemplatesValid(ts, clock) && |us| == |ts|
    requires forall i :: 0 <= i < |ts| ==> us[i].id == ts[i].id && us[i].createdAt == ts[i].createdAt
    ensures TemplatesValid(us, clock)
  {
  }

  /** Delete keeps a subsequence, so the template table stays well formed. */
  lemma DeleteKeepsValid(t: Tables, id: nat, fault: Fault)
    requires Valid(t)
    ensures Valid(Delete(t, id, fault).tables)
  {
    if !Fails(fault, 0) && FindTemplate(t.templates, id).Some? {
      var p := NotTemplate(id);
      Seqs.FilterIsSubsequence(t.templates, p);
      OrderedSubsequence(Seqs.Filter(t.templates, p), t.templates, t.clock);
    }
  }

  /** A subsequence of a well-formed template table is well formed. */
  lemma OrderedSubsequence(r: seq<TemplateRow>, s: seq<TemplateRow>, clock: nat)
    requires Seqs.IsSubsequence(r, s) && TemplatesValid(s, clock)
    ensures TemplatesValid(r, clock)
  {
    var rel := (a: TemplateRow, b: TemplateRow) => a.id < b.id && a.createdAt < b.createdAt;
    Seqs.SubsequencePairwise(r, s, rel);
    Seqs.SubsequenceMembers(r, s);
    forall i | 0 <= i < |r| ensures r[i].id < clock && r[i].createdAt < clock {
      assert r[i] in s;
    }
  }

  // ---- the service methods, run in place ----

  method GetAllOn(db: Db, fault: Fault) returns (r: Result<seq<TemplateRow>, Error>)
    ensures r == GetAll(db.Snapshot(), fault).result
  {
    if Fails(fault, 0) {
      return Err(fault.error);
    }
    r := Ok(Seqs.Reverse(db.templates));
  }

  method GetByIdOn(db: Db, id: nat, fault: Fault) returns (r: Result<Option<TemplateRow>, Error>)
    ensures r == GetById(db.Snapshot(), id, fault).result
  {
    if Fails(fault, 0) {
      return Err(fault.error);
    }
    r := Ok(FindTemplate(db.templates, id));
  }

  method CreateOn(db: Db, d: TemplateData, fault: Fault) returns (r: Result<TemplateRow, Error>)
    modifies db
    ensures Outcome(db.Snapshot(), r) == Create(old(db.Snapshot()), d, fault)
  {
    if Fails(fault, 0) {
      return Err(fault.error);
    }
    var row := TemplateRow(db.clock, d.name, d.subject, d.body, db.clock);
    db.templates := db.templates + [row];
    db.clock := db.clock + 1;
    r := Ok(row);
  }

  method UpdateOn(db: Db, id: nat, d: TemplateData, fault: Fault) returns (r: Result<TemplateRow, Error>)
    modifies db
    ensures Outcome(db.Snapshot(), r) == Update(old(db.Snapshot()), id, d, fault)
  {
    if Fails(fault, 0) {
      return Err(fault.error);
    }
    var found := FindTemplate(db.templates, id);
    if found.None? {
      return Err(NotFound);
    }
    db.templates := Seqs.Map(db.templates, Rewrite(id, d));
    r := Ok(Rewrite(id, d)(found.value));
  }

  method DeleteOn(db: Db, id: nat, fault: Fault) returns (r: Result<Ack, Error>)
    modifies db
    ensures Outcome(db.Snapshot(), r) == Delete(old(db.Snapshot()), id, fault)
  {
    if Fails(fault, 0) {
      return Err(fault.error);
    }
    if FindTemplate(db.templates, id).None? {
      return Err(NotFound);
    }
    db.templates := Seqs.Filter(db.templates, NotTemplate(id));
    r := Ok(Ack(true));
  }
}
