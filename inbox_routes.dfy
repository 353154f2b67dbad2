/**
 * The mounted inbox endpoints (server/routes/inbox.js). Each handler runs the same statements as
 * the matching `InboxService` operation, so it is modelled by calling it, and wraps the result in
 * the handler's own `try`/`catch`: the value as JSON, or status 500 with `{ error: err.message }`.
 * The approve endpoint never reads a body, so it approves without new content.
 */
module InboxRoutes {
  import opened Wrappers
  import opened ServerDb
  import opened InboxService
  import opened Http

  /** `GET /drafts`. */
  method GetDraftsRoute(db: Db, fault: Fault) returns (reply: Reply<seq<DraftView>>)
    ensures reply == Respond(GetDrafts(db.Snapshot(), fault).result)
  {
    var r := GetDraftsOn(db, fault);
    reply := Respond(r);
  }

  /** `GET /messages/:contactId`. */
  method GetMessagesRoute(db: Db, contactId: nat, fault: Fault) returns (reply: Reply<seq<MessageRow>>)
    ensures reply == Respond(GetHistory(db.Snapshot(), contactId, fault).result)
  {
    var r := GetHistoryOn(db, contactId, fault);
    reply := Respond(r);
  }

  /** `POST /simulate-incoming`. */
  method SimulateIncomingRoute(db: Db, contactId: nat, content: string, ai: (string, seq<MessageRow>) -> string, fault: Fault)
    returns (reply: Reply<MessageRow>)
    modifies db
    ensures var o := SimulateIncoming(old(db.Snapshot()), contactId, content, ai, fault);
            db.Snapshot() == o.tables && reply == Respond(o.result)
  {
    var r := SimulateIncomingOn(db, contactId, content, ai, fault);
    reply := Respond(r);
  }

  /** `POST /drafts/:id/approve`: no content is read from the request. */
  method ApproveRoute(db: Db, id: nat, fault: Fault) returns (reply: Reply<MessageRow>)
    modifies db
    ensures var o := ApproveDraft(old(db.Snapshot()), id, None, fault);
            db.Snapshot() == o.tables && reply == Respond(o.result)
  {
    var r := ApproveDraftOn(db, id, None, fault);
    reply := Respond(r);
  }

  /** `DELETE /drafts/:id`. */
  method DeleteDraftRoute(db: Db, id: nat, fault: Fault) returns (reply: Reply<Ack>)
    modifies db
    ensures var o := RejectDraft(old(db.Snapshot()), id, fault);
            db.Snapshot() == o.tables && reply == Respond(o.result)
  {
    var r := RejectDraftOn(db, id, fault);
    reply := Respond(r);
  }

  /**
   * `simulate-incoming` for an unknown contact answers 500 with "Contact not found", and the
   * incoming message it stored before the check stays in the table.
   */
  lemma SimulateUnknownContact(t: Tables, contactId: nat, content: string, ai: (string, seq<MessageRow>) -> string)
    requires FindContact(t.contacts, contactId).None?
    ensures var o := SimulateIncoming(t, contactId, content, ai, NoFault);
            && Respond(o.result) == Reply(500, ErrorJson("Contact not found"))
            && o.tables.messages == t.messages + [ReceivedRow(t, contactId, content)]
  {
  }

  /**
   * The approve endpoint sets status and role and keeps the stored draft text, and answers 200 with
   * the first row of that id so rewritten; an unknown id answers 500 with the reading error, never 404.
   */
  lemma ApproveRouteKeepsText(t: Tables, id: nat, fault: Fault)
    requires !Fails(fault, 0)
    ensures var o := ApproveDraft(t, id, None, fault);
            && (forall i :: 0 <= i < |t.messages| ==> o.tables.messages[i].content == t.messages[i].content)
            && (forall i :: 0 <= i < |t.messages| && t.messages[i].id == id ==>
                  o.tables.messages[i].status == MessageStatus.Sent && o.tables.messages[i].role == Role.Assistant)
            && (o.result.Ok? ==> Respond(o.result).body.value.status == MessageStatus.Sent)
            && (!Fails(fault, 1) && (exists m :: m in t.messages && m.id == id) ==>
                  Respond(o.result) == Reply(200, Json(FindMessage(t.messages, id).value.(status := MessageStatus.Sent, role := Role.Assistant))))
            && (!Fails(fault, 1) && (forall m :: m in t.messages ==> m.id != id) ==>
                  Respond(o.result) == Reply(500, ErrorJson(UndefinedRow.message)))
  {
  }

  /** `DELETE /drafts/:id` answers `{ success: true }` whenever the statement runs, matched or not. */
  lemma DeleteAlwaysSucceeds(t: Tables, id: nat)
    ensures Respond(RejectDraft(t, id, NoFault).result) == Reply(200, Json(Ack(true)))
  {
  }

  /** A failing first statement answers 500 with the database's message in every handler, and changes nothing. */
  lemma FirstStatementFailure(t: Tables, e: Error, contactId: nat, id: nat, content: string, ai: (string, seq<MessageRow>) -> string)
    ensures var f := FailAt(0, e);
            && Respond(GetDrafts(t, f).result) == Reply(500, ErrorJson(e.message))
            && Respond(GetHistory(t, contactId, f).result) == Reply(500, ErrorJson(e.message))
            && SimulateIncoming(t, contactId, content, ai, f) == Outcome(t, Err(e))
            && ApproveDraft(t, id, None, f) == Outcome(t, Err(e))
            && RejectDraft(t, id, f) == Outcome(t, Err(e))
  {
  }
}
