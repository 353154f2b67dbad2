/**
 * The PostgreSQL tables the server services work on (`contacts`, `templates`, `messages`), the
 * statement failures a call can meet, and the thrown-error shape the routes and the error
 * middleware read. Every inserted row takes its `id` and `created_at` from one counter, `clock`,
 * which also stands in for `NOW()`; rows are kept in insertion order, so `ORDER BY created_at ASC`
 * is table order and `DESC` is its reverse.
 */
module ServerDb {
  import opened Wrappers
  import opened Types

  /** `messages.role`. */
  datatype Role = User | Assistant | Draft
  /** `messages.status`. */
  datatype MessageStatus = Received | Draft | Sent

  datatype ContactRow = ContactRow(
    id: nat,
    companyName: string,
    email: string,
    contactPerson: Option<string>,
    phone: Option<string>,
    status: Status,
    lastContacted: Option<nat>,
    notes: Option<string>,
    createdAt: nat)

  datatype TemplateRow = TemplateRow(id: nat, name: string, subject: string, body: string, createdAt: nat)

  datatype MessageRow = MessageRow(id: nat, contactId: nat, content: string, role: Role, status: MessageStatus, createdAt: nat)

  /** A thrown JavaScript `Error`: its `message` and the optional `status` and `code` properties. */
  datatype Error = Error(message: string, status: Option<int>, code: Option<string>)

  /** The TypeError a `toCamelCase(undefined)` throws when a `RETURNING` or re-read yields no row. */
  const UndefinedRow: Error := Error("Cannot read properties of undefined (reading 'id')", None, None)

  /** Which statement of a call, counted from 0, the database rejects, and with what error. */
  datatype Fault = NoFault | FailAt(step: nat, error: Error)

  predicate Fails(fault: Fault, step: nat)
  {
    fault.FailAt? && fault.step == step
  }

  /** The contents of the database at one moment. */
  datatype Tables = Tables(contacts: seq<ContactRow>, templates: seq<TemplateRow>, messages: seq<MessageRow>, clock: nat)

  /** What a service call leaves behind: the tables and either its value or the error it throws. */
  datatype Outcome<T> = Outcome(tables: Tables, result: Result<T, Error>)

  /** `{ success: true }`. */
  datatype Ack = Ack(success: bool)

  /** Ids and creation stamps strictly increase in table order, emails are unique, and every stamp is in the past. */
  ghost predicate ContactsValid(cs: seq<ContactRow>, clock: nat)
  {
    && (forall i, j :: 0 <= i < j < |cs| ==> cs[i].id < cs[j].id && cs[i].createdAt < cs[j].createdAt && cs[i].email != cs[j].email)
    && (forall i :: 0 <= i < |cs| ==> cs[i].id < clock && cs[i].createdAt < clock)
  }

  ghost predicate TemplatesValid(ts: seq<TemplateRow>, clock: nat)
  {
    && (forall i, j :: 0 <= i < j < |ts| ==> ts[i].id < ts[j].id && ts[i].createdAt < ts[j].createdAt)
    && (forall i :: 0 <= i < |ts| ==> ts[i].id < clock && ts[i].createdAt < clock)
  }

  ghost predicate MessagesValid(ms: seq<MessageRow>, clock: nat)
  {
    && (forall i, j :: 0 <= i < j < |ms| ==> ms[i].id < ms[j].id && ms[i].createdAt < ms[j].createdAt)
    && (forall i :: 0 <= i < |ms| ==> ms[i].id < clock && ms[i].createdAt < clock)
  }

  ghost predicate Valid(t: Tables)
  {
    ContactsValid(t.contacts, t.clock) && TemplatesValid(t.templates, t.clock) && MessagesValid(t.messages, t.clock)
  }

  /** `SELECT * FROM contacts WHERE id = $1`, first row. */
  function FindContact(cs: seq<ContactRow>, id: nat): (r: Option<ContactRow>)
    ensures r.None? <==> forall c :: c in cs ==> c.id != id
    ensures r.Some? ==> r.value in cs && r.value.id == id
  {
    if |cs| == 0 then None
    else if cs[0].id == id then Some(cs[0])
    else
      assert forall c :: c in cs <==> c == cs[0] || c in cs[1..];
      FindContact(cs[1..], id)
  }

  /** `SELECT * FROM messages WHERE id = $1`, first row. */
  function FindMessage(ms: seq<MessageRow>, id: nat): (r: Option<MessageRow>)
    ensures r.None? <==> forall m :: m in ms ==> m.id != id
    ensures r.Some? ==> r.value in ms && r.value.id == id
  {
    if |ms| == 0 then None
    else if ms[0].id == id then Some(ms[0])
    else
      assert forall m :: m in ms <==> m == ms[0] || m in ms[1..];
      FindMessage(ms[1..], id)
  }

  /** `INSERT INTO messages (contact_id, content, role, status) ... RETURNING *`: the new row and the tables after it. */
  function InsertMessage(t: Tables, contactId: nat, content: string, role: Role, status: MessageStatus): (r: (Tables, MessageRow))
    ensures r.1 == MessageRow(t.clock, contactId, content, role, status, t.clock)
    ensures r.0 == t.(messages := t.messages + [r.1], clock := t.clock + 1)
    ensures Valid(t) ==> Valid(r.0)
  {
    var row := MessageRow(t.clock, contactId, content, role, status, t.clock);
    (t.(messages := t.messages + [row], clock := t.clock + 1), row)
  }

  /** The database connection: the three tables and the counter, updated in place by the services. */
  class Db {
    var contacts: seq<ContactRow>
    var templates: seq<TemplateRow>
    var messages: seq<MessageRow>
    var clock: nat

    function Snapshot(): Tables
      reads this
    {
      Tables(contacts, templates, messages, clock)
    }

    constructor ()
      ensures Snapshot() == Tables([], [], [], 0)
      ensures Valid(Snapshot())
    {
      contacts, templates, messages, clock := [], [], [], 0;
    }

    /** Runs one `INSERT INTO messages` in place. */
    method AddMessage(contactId: nat, content: string, role: Role, status: MessageStatus) returns (row: MessageRow)
      modifies this
      ensures (Snapshot(), row) == InsertMessage(old(Snapshot()), contactId, content, role, status)
    {
      row := MessageRow(clock, contactId, content, role, status, clock);
      messages := messages + [row];
      clock := clock + 1;
    }
  }
}
