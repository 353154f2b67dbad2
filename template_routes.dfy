/**
 * The mounted template endpoints (server/routes/templates.js). The server mounts this router, not
 * `TemplateService`, under `/api/templates`. Its list and create handlers run the service's
 * statements; its update and delete handlers run the bare statement without looking for the row
 * first, so an unknown id is never answered with the service's 404.
 */
module TemplateRoutes {
  import opened Wrappers
  import opened ServerDb
  import opened TemplateService
  import opened Http
  import Seqs

  /**
   * `PUT /:id`: the UPDATE ... RETURNING alone, then `toCamelCase(result.rows[0])`. With no matching
   * row the UPDATE changes nothing and the read of `undefined` throws.
   */
  function MountedUpdate(t: Tables, id: nat, d: TemplateData, fault: Fault): (o: Outcome<TemplateRow>)
    ensures o.tables.contacts == t.contacts && o.tables.messages == t.messages && o.tables.clock == t.clock
    ensures o.result.Err? ==> o.tables == t
    ensures o.result.Ok? <==> !Fails(fault, 0) && exists x :: x in t.templates && x.id == id
    ensures !Fails(fault, 0) && (forall x :: x in t.templates ==> x.id != id) ==> o.result == Err(UndefinedRow)
    ensures o.result.Ok? ==> (o.result.value.id == id && o.result.value.name == d.name
                              && o.result.value.subject == d.subject && o.result.value.body == d.body)
  {
    if Fails(fault, 0) then Outcome(t, Err(fault.error))
    else match FindTemplate(t.templates, id)
      case None => Outcome(t, Err(UndefinedRow))
      case Some(x) => Outcome(t.(templates := Seqs.Map(t.templates, Rewrite(id, d))), Ok(Rewrite(id, d)(x)))
  }

  /** `DELETE /:id`: the DELETE alone, answering `{ success: true }` whether or not a row matched. */
  function MountedDelete(t: Tables, id: nat, fault: Fault): (o: Outcome<Ack>)
    ensures o.tables.contacts == t.contacts && o.tables.messages == t.messages && o.tables.clock == t.clock
    ensures o.result.Ok? <==> !Fails(fault, 0)
    ensures o.result.Err? ==> o.tables == t
    ensures o.result.Ok? ==> (o.result.value == Ack(true)
                              && forall x :: x in o.tables.templates <==> x in t.templates && x.id != id)
  {
    if Fails(fault, 0) then Outcome(t, Err(fault.error))
    else Outcome(t.(templates := Seqs.Filter(t.templates, NotTemplate(id))), Ok(Ack(true)))
  }

  // ---- properties of the specification ----

  /** For a stored id both handlers do exactly what the service does. */
  lemma AgreeOnStoredIds(t: Tables, id: nat, d: TemplateData, fault: Fault)
    requires exists x :: x in t.templates && x.id == id
    ensures MountedUpdate(t, id, d, fault) == Update(t, id, d, fault)
    ensures MountedDelete(t, id, fault) == Delete(t, id, fault)
  {
  }

  /**
   * For an unknown id the service throws its 404, but the mounted update answers 500 with the
   * TypeError's message and the mounted delete answers 200 `{ success: true }`; neither changes a row.
   */
  lemma UnknownIdAnswers(t: Tables, id: nat, d: TemplateData)
    requires forall x :: x in t.templates ==> x.id != id
    ensures Update(t, id, d, NoFault).result == Err(NotFound) && Delete(t, id, NoFault).result == Err(NotFound)
    ensures var u := MountedUpdate(t, id, d, NoFault);
            u.tables == t && Respond(u.result) == Reply(500, ErrorJson(UndefinedRow.message))
    ensures var r := MountedDelete(t, id, NoFault);
            r.tables == t && Respond(r.result) == Reply(200, Json(Ack(true)))
  {
    Seqs.FilterKeepsAll(t.templates, NotTemplate(id));
  }

  /** Both mounted handlers keep the tables well formed. */
  lemma MountedKeepsValid(t: Tables, id: nat, d: TemplateData, fault: Fault)
    requires Valid(t)
    ensures Valid(MountedUpdate(t, id, d, fault).tables)
    ensures Valid(MountedDelete(t, id, fault).tables)
  {
    if exists x :: x in t.templates && x.id == id {
      AgreeOnStoredIds(t, id, d, fault);
      UpdateKeepsValid(t, id, d, fault);
      DeleteKeepsValid(t, id, fault);
    } else if !Fails(fault, 0) {
      UnknownIdAnswers(t, id, d);
    }
  }

  // ---- the handlers, run in place ----

  /** `GET /`. */
  method GetTemplatesRoute(db: Db, fault: Fault) returns (reply: Reply<seq<TemplateRow>>)
    ensures reply == Respond(GetAll(db.Snapshot(), fault).result)
  {
    var r := GetAllOn(db, fault);
    reply := Respond(r);
  }

  /** `POST /`. */
  method CreateTemplateRoute(db: Db, d: TemplateData, fault: Fault) returns (reply: Reply<TemplateRow>)
    modifies db
    ensures var o := Create(old(db.Snapshot()), d, fault);
            db.Snapshot() == o.tables && reply == Respond(o.result)
  {
    var r := CreateOn(db, d, fault);
    reply := Respond(r);
  }

  /** `PUT /:id`. */
  method UpdateTemplateRoute(db: Db, id: nat, d: TemplateData, fault: Fault) returns (reply: Reply<TemplateRow>)
    modifies db
    ensures var o := MountedUpdate(old(db.Snapshot()), id, d, fault);
            db.Snapshot() == o.tables && reply == Respond(o.result)
  {
    if Fails(fault, 0) {
      return Respond(Err(fault.error));
    }
    var found := FindTemplate(db.templates, id);
    if found.None? {
      return Respond(Err(UndefinedRow));
    }
    db.templates := Seqs.Map(db.templates, Rewrite(id, d));
    reply := Respond(Ok(Rewrite(id, d)(found.value)));
  }

  /** `DELETE /:id`. */
  method DeleteTemplateRoute(db: Db, id: nat, fault: Fault) returns (reply: Reply<Ack>)
    modifies db
    ensures var o := MountedDelete(old(db.Snapshot()), id, fault);
            db.Snapshot() == o.tables && reply == Respond(o.result)
  {
    if Fails(fault, 0) {
      return Respond(Err(fault.error));
    }
    db.templates := Seqs.Filter(db.templates, NotTemplate(id));
    reply := Respond(Ok(Ack(true)));
  }
}
