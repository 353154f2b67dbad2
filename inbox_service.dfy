/**
 * `InboxService` (server/services/inbox.js): the draft workflow over the `messages` table. Each
 * operation is a function from the tables before the call to its `Outcome`, with the lemmas about
 * it, and a method that runs the same statements on a `Db` in place.
 */
module InboxService {
  import opened Wrappers
  import opened Types
  import opened ServerDb
  import Seqs

  /** What `getDrafts` maps through `toCamelCase`: a draft joined with its contact's company, e-mail and person. */
  datatype DraftView = DraftView(message: MessageRow, companyName: string, email: string, contactPerson: Option<string>)

  const ContactNotFound: Error := Error("Contact not found", None, None)

  /** `contact_id = $1`. */
  function BelongsTo(contactId: nat): MessageRow -> bool
  {
    (m: MessageRow) => m.contactId == contactId
  }

  /** `SELECT * FROM messages WHERE contact_id = $1 ORDER BY created_at ASC`. */
  function History(ms: seq<MessageRow>, contactId: nat): seq<MessageRow>
  {
    Seqs.Filter(ms, BelongsTo(contactId))
  }

  /** The rows the join keeps: `m.status = 'draft'` with a contact of that id. */
  function JoinsDraft(cs: seq<ContactRow>): MessageRow -> bool
  {
    (m: MessageRow) => m.status == MessageStatus.Draft && FindContact(cs, m.contactId).Some?
  }

  /** A kept row with its contact's columns (only applied to rows `JoinsDraft` keeps). */
  function View(cs: seq<ContactRow>): MessageRow -> DraftView
  {
    (m: MessageRow) =>
      match FindContact(cs, m.contactId)
      case Some(c) => DraftView(m, c.companyName, c.email, c.contactPerson)
      case None => DraftView(m, "", "", None)
  }

  /** The joined drafts before `ORDER BY ... DESC` is applied. */
  function JoinedDrafts(t: Tables): seq<DraftView>
  {
    Seqs.Map(Seqs.Filter(t.messages, JoinsDraft(t.contacts)), View(t.contacts))
  }

  /** The `getDrafts` query: draft rows joined with their contact, `ORDER BY m.created_at DESC`. */
  function Drafts(t: Tables): seq<DraftView>
  {
    Seqs.Reverse(JoinedDrafts(t))
  }

  /** The name handed to `generateDraft`: `contact.contact_person || contact.company_name`. */
  function DisplayName(c: ContactRow): (r: string)
    ensures Truthy(c.contactPerson) ==> r == c.contactPerson.value
    ensures !Truthy(c.contactPerson) ==> r == c.companyName
  {
    if Truthy(c.contactPerson) then c.contactPerson.value else c.companyName
  }

  /** `getDrafts()`: one query (statement 0). */
  function GetDrafts(t: Tables, fault: Fault): (o: Outcome<seq<DraftView>>)
    ensures o.tables == t
    ensures o.result.Err? <==> Fails(fault, 0)
    ensures o.result.Ok? ==> o.result.value == Drafts(t)
  {
    if Fails(fault, 0) then Outcome(t, Err(fault.error)) else Outcome(t, Ok(Drafts(t)))
  }

  /** `getHistory(contactId)`: one query (statement 0). */
  function GetHistory(t: Tables, contactId: nat, fault: Fault): (o: Outcome<seq<MessageRow>>)
    ensures o.tables == t
    ensures o.result.Err? <==> Fails(fault, 0)
    ensures o.result.Ok? ==> o.result.value == History(t.messages, contactId)
  {
    if Fails(fault, 0) then Outcome(t, Err(fault.error)) else Outcome(t, Ok(History(t.messages, contactId)))
  }

  /** The `user`/`received` row `simulateIncoming` stores first. */
  function ReceivedRow(t: Tables, contactId: nat, content: string): MessageRow
  {
    InsertMessage(t, contactId, content, Role.User, MessageStatus.Received).1
  }

  /**
   * `simulateIncoming(contactId, content)`: statement 0 stores the incoming message, 1 reads the
   * history, 2 reads the contact, and 3 stores the draft `ai` wrote for it.
   */
  function SimulateIncoming(t: Tables, contactId: nat, content: string, ai: (string, seq<MessageRow>) -> string, fault: Fault)
    : (o: Outcome<MessageRow>)
    ensures o.tables.contacts == t.contacts && o.tables.templates == t.templates
    ensures Fails(fault, 0) ==> o == Outcome(t, Err(fault.error))
    ensures !Fails(fault, 0) ==> (|o.tables.messages| >= |t.messages| + 1
                                  && o.tables.messages[..|t.messages| + 1] == t.messages + [ReceivedRow(t, contactId, content)])
    ensures o.result.Ok? ==> o.tables.messages == t.messages + [ReceivedRow(t, contactId, content), o.result.value]
    ensures o.result.Ok? ==> (o.result.value.contactId == contactId
                              && o.result.value.role == Role.Draft && o.result.value.status == MessageStatus.Draft)
    ensures o.result.Ok? <==> !Fails(fault, 0) && !Fails(fault, 1) && !Fails(fault, 2) && !Fails(fault, 3)
                              && FindContact(t.contacts, contactId).Some?
    ensures !Fails(fault, 0) && !Fails(fault, 1) && !Fails(fault, 2) && FindContact(t.contacts, contactId).None?
            ==> o.result == Err(ContactNotFound)
  {
    if Fails(fault, 0) then Outcome(t, Err(fault.error))
    else
      var (t1, _) := InsertMessage(t, contactId, content, Role.User, MessageStatus.Received);
      if Fails(fault, 1) || Fails(fault, 2) then Outcome(t1, Err(fault.error))
      else
        var history := History(t1.messages, contactId);
        match FindContact(t1.contacts, contactId)
        case None => Outcome(t1, Err(ContactNotFound))
        case Some(c) =>
          if Fails(fault, 3) then Outcome(t1, Err(fault.error))
          else
            var (t2, draft) := InsertMessage(t1, contactId, ai(DisplayName(c), history), Role.Draft, MessageStatus.Draft);
            assert t2.messages[..|t.messages| + 1] == t1.messages;
            Outcome(t2, Ok(draft))
  }

  /** `UPDATE messages SET status = 'sent', role = 'assistant'[, content = $2] WHERE id = $1`. */
  function ApproveRow(id: nat, content: Option<string>): MessageRow -> MessageRow
  {
    (m: MessageRow) =>
      if m.id != id then m
      else m.(status := MessageStatus.Sent, role := Role.Assistant, content := if Truthy(content) then content.value else m.content)
  }

  /** Reading a row back after the update finds the first matching row, rewritten. */
  lemma {:induction false} FindApproved(ms: seq<MessageRow>, id: nat, content: Option<string>)
    ensures var found := FindMessage(ms, id);
            FindMessage(Seqs.Map(ms, ApproveRow(id, content)), id)
            == if found.Some? then Some(ApproveRow(id, content)(found.value)) else None
    decreases |ms|
  {
    var f := ApproveRow(id, content);
    var r := Seqs.Map(ms, f);
    if |ms| > 0 && ms[0].id != id {
      assert r[0] == ms[0];
      assert r[1..] == Seqs.Map(ms[1..], f);
      FindApproved(ms[1..], id, content);
    }
  }

  /** `approveDraft(id, content)`: statement 0 updates, statement 1 reads the row back. */
  function ApproveDraft(t: Tables, id: nat, content: Option<string>, fault: Fault): (o: Outcome<MessageRow>)
    ensures o.tables.contacts == t.contacts && o.tables.templates == t.templates && o.tables.clock == t.clock
    ensures Fails(fault, 0) ==> o == Outcome(t, Err(fault.error))
    ensures !Fails(fault, 0) ==> |o.tables.messages| == |t.messages|
    ensures !Fails(fault, 0) ==> forall i :: 0 <= i < |t.messages| && t.messages[i].id != id ==> o.tables.messages[i] == t.messages[i]
    ensures !Fails(fault, 0) ==> forall i :: 0 <= i < |t.messages| && t.messages[i].id == id ==>
              o.tables.messages[i] == t.messages[i].(status := MessageStatus.Sent, role := Role.Assistant,
                                                      content := if Truthy(content) then content.value else t.messages[i].content)
    ensures o.result.Ok? ==> (o.result.value in o.tables.messages && o.result.value.id == id
                              && o.result.value.status == MessageStatus.Sent && o.result.value.role == Role.Assistant)
    ensures !Fails(fault, 0) && !Fails(fault, 1) && (forall m :: m in t.messages ==> m.id != id) ==> o.result == Err(UndefinedRow)
    ensures !Fails(fault, 0) && !Fails(fault, 1) && (exists m :: m in t.messages && m.id == id)
            ==> o.result == Ok(ApproveRow(id, content)(FindMessage(t.messages, id).value))
    ensures Fails(fault, 1) ==> o.result == Err(fault.error)
  {
    if Fails(fault, 0) then Outcome(t, Err(fault.error))
    else
      var t1 := t.(messages := Seqs.Map(t.messages, ApproveRow(id, content)));
      assert forall m :: m in t1.messages ==> exists i :: 0 <= i < |t.messages| && m == t1.messages[i];
      if Fails(fault, 1) then Outcome(t1, Err(fault.error))
      else
        FindApproved(t.messages, id, content);
        match FindMessage(t1.messages, id)
        case None =>
          Outcome(t1, Err(UndefinedRow))
        case Some(m) =>
          Outcome(t1, Ok(m))
  }

  /** The rows `DELETE FROM messages WHERE id = $1` keeps. */
  function NotRow(id: nat): MessageRow -> bool
  {
    (m: MessageRow) => m.id != id
  }

  /** `rejectDraft(id)`: one `DELETE FROM messages WHERE id = $1` (statement 0). */
  function RejectDraft(t: Tables, id: nat, fault: Fault): (o: Outcome<Ack>)
    ensures o.tables.contacts == t.contacts && o.tables.templates == t.templates && o.tables.clock == t.clock
    ensures o.result.Ok? <==> !Fails(fault, 0)
    ensures o.result.Ok? ==> o.result.value == Ack(true)
    ensures Fails(fault, 0) ==> o.tables == t
    ensures !Fails(fault, 0) ==> forall m :: m in o.tables.messages <==> m in t.messages && m.id != id
  {
    if Fails(fault, 0) then Outcome(t, Err(fault.error))
    else Outcome(t.(messages := Seqs.Filter(t.messages, NotRow(id))), Ok(Ack(true)))
  }

  // ---- properties of the specification ----

  /** A message row comes before another: a smaller id and an earlier stamp. */
  function EarlierMessage(a: MessageRow, b: MessageRow): bool
  {
    a.id < b.id && a.createdAt < b.createdAt
  }

  lemma MessagesValidPairwise(ms: seq<MessageRow>, clock: nat)
    requires MessagesValid(ms, clock)
    ensures Seqs.Pairwise(ms, EarlierMessage)
  {
  }

  /** `getHistory(c)` holds exactly the messages of contact `c`, oldest first, in table order. */
  lemma HistoryOldestFirst(t: Tables, c: nat)
    requires Valid(t)
    ensures forall m :: m in History(t.messages, c) <==> m in t.messages && m.contactId == c
    ensures Seqs.IsSubsequence(History(t.messages, c), t.messages)
    ensures var h := History(t.messages, c);
            forall i, j :: 0 <= i < j < |h| ==> h[i].createdAt < h[j].createdAt
  {
    MessagesValidPairwise(t.messages, t.clock);
    Seqs.FilterPairwise(t.messages, BelongsTo(c), EarlierMessage);
    Seqs.FilterIsSubsequence(t.messages, BelongsTo(c));
  }

  /** Appending a row extends the history of its own contact by that row, and no other. */
  lemma HistoryAppend(ms: seq<MessageRow>, row: MessageRow, c: nat)
    ensures History(ms + [row], c) == History(ms, c) + (if row.contactId == c then [row] else [])
  {
    Seqs.FilterAppend(ms, [row], BelongsTo(c));
    assert [row][1..] == [];
  }

  /**
   * The history handed to `generateDraft` is the contact's earlier history followed by the message
   * just received, so the incoming message is its last element.
   */
  lemma IncomingHistoryEndsWithReceived(t: Tables, contactId: nat, content: string)
    ensures var received := ReceivedRow(t, contactId, content);
            History(t.messages + [received], contactId) == History(t.messages, contactId) + [received]
  {
    HistoryAppend(t.messages, ReceivedRow(t, contactId, content), contactId);
  }

  /** The draft a successful `simulateIncoming` stores is the text `ai` wrote for that display name and that history. */
  lemma IncomingDraftContent(t: Tables, contactId: nat, content: string, ai: (string, seq<MessageRow>) -> string, fault: Fault)
    requires SimulateIncoming(t, contactId, content, ai, fault).result.Ok?
    ensures var received := ReceivedRow(t, contactId, content);
            var c := FindContact(t.contacts, contactId).value;
            SimulateIncoming(t, contactId, content, ai, fault).result.value.content
              == ai(DisplayName(c), History(t.messages, contactId) + [received])
  {
    IncomingHistoryEndsWithReceived(t, contactId, content);
  }

  /** Every draft listed is a draft-status row of some existing contact, carrying that contact's columns. */
  lemma DraftsAreJoinedDrafts(t: Tables)
    ensures forall v :: v in Drafts(t) ==>
              && v.message in t.messages && v.message.status == MessageStatus.Draft
              && exists c :: c in t.contacts && c.id == v.message.contactId
                          && v.companyName == c.companyName && v.email == c.email && v.contactPerson == c.contactPerson
  {
    forall v | v in Drafts(t)
      ensures && v.message in t.messages && v.message.status == MessageStatus.Draft
              && exists c :: c in t.contacts && c.id == v.message.contactId
                          && v.companyName == c.companyName && v.email == c.email && v.contactPerson == c.contactPerson
    {
      assert v in multiset(JoinedDrafts(t));
      JoinedDraftJoins(t, v);
    }
  }

  /** Each joined view is a draft row with the columns of its contact. */
  lemma JoinedDraftJoins(t: Tables, v: DraftView)
    requires v in JoinedDrafts(t)
    ensures && v.message in t.messages && v.message.status == MessageStatus.Draft
            && exists c :: c in t.contacts && c.id == v.message.contactId
                        && v.companyName == c.companyName && v.email == c.email && v.contactPerson == c.contactPerson
  {
    var kept := Seqs.Filter(t.messages, JoinsDraft(t.contacts));
    var k :| 0 <= k < |kept| && JoinedDrafts(t)[k] == v;
    assert v == View(t.contacts)(kept[k]);
    assert kept[k] in kept;
    var c := FindContact(t.contacts, kept[k].contactId).value;
    assert c in t.contacts;
  }


  /** Every draft-status row whose contact exists is listed. */
  lemma DraftsComplete(t: Tables, m: MessageRow)
    requires m in t.messages && m.status == MessageStatus.Draft && FindContact(t.contacts, m.contactId).Some?
    ensures exists v :: v in Drafts(t) && v.message == m
  {
    var kept := Seqs.Filter(t.messages, JoinsDraft(t.contacts));
    assert m in kept;
    var k :| 0 <= k < |kept| && kept[k] == m;
    var v := JoinedDrafts(t)[k];
    assert v.message == m;
    assert v in multiset(Drafts(t));
  }


  /** The joined draft rows keep the table's ascending stamps. */
  lemma JoinedDraftsAscending(t: Tables)
    requires Valid(t)
    ensures Seqs.Pairwise(Seqs.Filter(t.messages, JoinsDraft(t.contacts)), EarlierMessage)
  {
    MessagesValidPairwise(t.messages, t.clock);
    Seqs.FilterPairwise(t.messages, JoinsDraft(t.contacts), EarlierMessage);
  }

  /** Each listed draft is older than every draft after it. */
  predicate OldestFirst(views: seq<DraftView>)
  {
    forall a, b :: 0 <= a < b < |views| ==> views[a].message.createdAt < views[b].message.createdAt
  }

  /** Attaching the contact columns keeps the messages and their order. */
  lemma ViewsAscending(t: Tables)
    requires Valid(t)
    ensures OldestFirst(JoinedDrafts(t))
  {
    var kept := Seqs.Filter(t.messages, JoinsDraft(t.contacts));
    JoinedDraftsAscending(t);
    var views := JoinedDrafts(t);
    assert views == Seqs.Map(kept, View(t.contacts));
    forall a, b | 0 <= a < b < |views| ensures views[a].message.createdAt < views[b].message.createdAt {
      assert views[a] == View(t.contacts)(kept[a]) && views[b] == View(t.contacts)(kept[b]);
      assert views[a].message == kept[a] && views[b].message == kept[b];
      assert EarlierMessage(kept[a], kept[b]);
    }
  }

  /** Each listed draft is newer than every draft after it. */
  predicate NewestFirst(d: seq<DraftView>)
  {
    forall i, j :: 0 <= i < j < |d| ==> d[i].message.createdAt > d[j].message.createdAt
  }

  /** `ORDER BY ... DESC` over rows listed oldest first lists them newest first. */
  lemma ReverseNewestFirst(views: seq<DraftView>)
    requires OldestFirst(views)
    ensures NewestFirst(Seqs.Reverse(views))
  {
    var d := Seqs.Reverse(views);
    forall i, j | 0 <= i < j < |d| ensures d[i].message.createdAt > d[j].message.createdAt {
      assert d[i] == views[|views| - 1 - i] && d[j] == views[|views| - 1 - j];
    }
  }

  /** `getDrafts` lists the newest draft first. */
  lemma DraftsNewestFirst(t: Tables)
    requires Valid(t)
    ensures NewestFirst(Drafts(t))
  {
    ViewsAscending(t);
    ReverseNewestFirst(JoinedDrafts(t));
  }

  /** Approving twice with the same content leaves the tables as approving once does. */
  lemma ApproveIdempotent(t: Tables, id: nat, content: Option<string>)
    ensures var once := ApproveDraft(t, id, content, NoFault);
            ApproveDraft(once.tables, id, content, NoFault) == once
  {
    var once := ApproveDraft(t, id, content, NoFault);
    var twice := ApproveDraft(once.tables, id, content, NoFault);
    assert twice.tables.messages == once.tables.messages;
  }

  /** Once approved, a row no longer appears among the drafts. */
  lemma ApprovedLeavesDrafts(t: Tables, id: nat, content: Option<string>, fault: Fault)
    requires !Fails(fault, 0)
    ensures forall v :: v in Drafts(ApproveDraft(t, id, content, fault).tables) ==> v.message.id != id
  {
    var t1 := ApproveDraft(t, id, content, fault).tables;
    DraftsAreJoinedDrafts(t1);
    forall v | v in Drafts(t1) ensures v.message.id != id {
      var i :| 0 <= i < |t1.messages| && t1.messages[i] == v.message;
    }
  }

  /** Approving keeps ids and stamps, so the tables stay well formed. */
  lemma ApproveKeepsValid(t: Tables, id: nat, content: Option<string>, fault: Fault)
    requires Valid(t)
    ensures Valid(ApproveDraft(t, id, content, fault).tables)
  {
    var o := ApproveDraft(t, id, content, fault);
    if !Fails(fault, 0) {
      var ms := o.tables.messages;
      forall i | 0 <= i < |t.messages| ensures ms[i].id == t.messages[i].id && ms[i].createdAt == t.messages[i].createdAt {
      }
      assert MessagesValid(ms, t.clock);
      assert o.tables == t.(messages := ms);
    }
  }

  /** A rejected row drops out of its contact's history; the rest of the history keeps its order. */
  lemma RejectedLeavesHistory(t: Tables, id: nat, c: nat, fault: Fault)
    requires !Fails(fault, 0)
    ensures History(RejectDraft(t, id, fault).tables.messages, c) == Seqs.Filter(History(t.messages, c), NotRow(id))
  {
    Seqs.FilterCommutes(t.messages, NotRow(id), BelongsTo(c));
  }

  /** Rejecting deletes a subsequence, so the tables stay well formed. */
  lemma RejectKeepsValid(t: Tables, id: nat, fault: Fault)
    requires Valid(t)
    ensures Valid(RejectDraft(t, id, fault).tables)
  {
    if !Fails(fault, 0) {
      var kept := Seqs.Filter(t.messages, NotRow(id));
      MessagesValidPairwise(t.messages, t.clock);
      Seqs.FilterPairwise(t.messages, (m: MessageRow) => m.id != id, EarlierMessage);
      forall i | 0 <= i < |kept| ensures kept[i].id < t.clock && kept[i].createdAt < t.clock {
        assert kept[i] in t.messages;
      }
      assert RejectDraft(t, id, fault).tables == t.(messages := kept);
    }
  }


  /** `simulateIncoming` appends rows with fresh, increasing stamps, so the tables stay well formed. */
  lemma IncomingKeepsValid(t: Tables, contactId: nat, content: string, ai: (string, seq<MessageRow>) -> string, fault: Fault)
    requires Valid(t)
    ensures Valid(SimulateIncoming(t, contactId, content, ai, fault).tables)
  {
  }

  // ---- the service methods, run in place ----

  method GetDraftsOn(db: Db, fault: Fault) returns (r: Result<seq<DraftView>, Error>)
    ensures r == GetDrafts(db.Snapshot(), fault).result
  {
    if Fails(fault, 0) {
      return Err(fault.error);
    }
    r := Ok(Drafts(db.Snapshot()));
  }

  method GetHistoryOn(db: Db, contactId: nat, fault: Fault) returns (r: Result<seq<MessageRow>, Error>)
    ensures r == GetHistory(db.Snapshot(), contactId, fault).result
  {
    if Fails(fault, 0) {
      return Err(fault.error);
    }
    r := Ok(History(db.messages, contactId));
  }

  method SimulateIncomingOn(db: Db, contactId: nat, content: string, ai: (string, seq<MessageRow>) -> string, fault: Fault)
    returns (r: Result<MessageRow, Error>)
    modifies db
    ensures Outcome(db.Snapshot(), r) == SimulateIncoming(old(db.Snapshot()), contactId, content, ai, fault)
  {
    if Fails(fault, 0) {
      return Err(fault.error);
    }
    var _ := db.AddMessage(contactId, content, Role.User, MessageStatus.Received);
    if Fails(fault, 1) {
      return Err(fault.error);
    }
    var history := History(db.messages, contactId);
    if Fails(fault, 2) {
      return Err(fault.error);
    }
    var contact := FindContact(db.contacts, contactId);
    if contact.None? {
      return Err(ContactNotFound);
    }
    var draftContent := ai(DisplayName(contact.value), history);
    if Fails(fault, 3) {
      return Err(fault.error);
    }
    var draft := db.AddMessage(contactId, draftContent, Role.Draft, MessageStatus.Draft);
    r := Ok(draft);
  }

  method ApproveDraftOn(db: Db, id: nat, content: Option<string>, fault: Fault) returns (r: Result<MessageRow, Error>)
    modifies db
    ensures Outcome(db.Snapshot(), r) == ApproveDraft(old(db.Snapshot()), id, content, fault)
  {
    if Fails(fault, 0) {
      return Err(fault.error);
    }
    db.messages := Seqs.Map(db.messages, ApproveRow(id, content));
    if Fails(fault, 1) {
      return Err(fault.error);
    }
    var row := FindMessage(db.messages, id);
    if row.None? {
      return Err(UndefinedRow);
    }
    r := Ok(row.value);
  }

  method RejectDraftOn(db: Db, id: nat, fault: Fault) returns (r: Result<Ack, Error>)
    modifies db
    ensures Outcome(db.Snapshot(), r) == RejectDraft(old(db.Snapshot()), id, fault)
  {
    if Fails(fault, 0) {
      return Err(fault.error);
    }
    db.messages := Seqs.Filter(db.messages, NotRow(id));
    r := Ok(Ack(true));
  }
}
