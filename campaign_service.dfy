/**
 * `CampaignService.sendCampaign` (server/services/campaigns.js): for each listed contact id, in
 * order, log a placeholder outbound message and mark the contact sent. Iteration `k` runs
 * statement `2k` (the INSERT) and `2k + 1` (the UPDATE); there is no transaction, so a failing
 * statement leaves the earlier iterations' rows in place. The template is never read.
 */
module CampaignService {
  import opened Wrappers
  import opened Types
  import opened ServerDb
  import Seqs

  /** The fixed text logged for every recipient, before the template id. */
  const ContentPrefix: string := "[Campaign Email] Template ID: "

  /** `` `[Campaign Email] Template ID: ${templateId}` ``. */
  function CampaignContent(templateId: string): (s: string)
    ensures |s| == |ContentPrefix| + |templateId|
    ensures s[..|ContentPrefix|] == ContentPrefix && s[|ContentPrefix|..] == templateId
  {
    ContentPrefix + templateId
  }

  /** `{ success: true, sentCount: results.length }`. */
  datatype CampaignResult = CampaignResult(success: bool, sentCount: nat)

  /** The contact row after `UPDATE contacts SET status = 'sent', last_contacted = NOW() WHERE id = $1`. */
  function MarkRow(id: nat, now: nat): ContactRow -> ContactRow
  {
    (c: ContactRow) => if c.id == id then c.(status := Status.Sent, lastContacted := Some(now)) else c
  }

  /** That UPDATE on the tables, `NOW()` being the current clock. */
  function MarkSent(t: Tables, id: nat): (r: Tables)
    ensures r.messages == t.messages && r.templates == t.templates && r.clock == t.clock
    ensures |r.contacts| == |t.contacts|
    ensures forall j :: 0 <= j < |t.contacts| && t.contacts[j].id != id ==> r.contacts[j] == t.contacts[j]
    ensures forall j :: 0 <= j < |t.contacts| && t.contacts[j].id == id ==>
              r.contacts[j] == t.contacts[j].(status := Status.Sent, lastContacted := Some(t.clock))
  {
    t.(contacts := Seqs.Map(t.contacts, MarkRow(id, t.clock)))
  }

  /** Iteration `k` of the loop, for contact `id`, once `k` contacts are done. */
  function SendOne(t: Tables, id: nat, k: nat, templateId: string, fault: Fault): Outcome<nat>
  {
    if Fails(fault, 2 * k) then Outcome(t, Err(fault.error))
    else
      var (t1, _) := InsertMessage(t, id, CampaignContent(templateId), Role.Assistant, MessageStatus.Sent);
      if Fails(fault, 2 * k + 1) then Outcome(t1, Err(fault.error))
      else Outcome(MarkSent(t1, id), Ok(k + 1))
  }

  /** The loop over `contactIds`: the tables it leaves and `results.length`, or the error that stopped it. */
  function SendAll(t: Tables, ids: seq<nat>, templateId: string, fault: Fault): Outcome<nat>
    decreases |ids|
  {
    if |ids| == 0 then Outcome(t, Ok(0))
    else
      var prev := SendAll(t, ids[..|ids| - 1], templateId, fault);
      if prev.result.Err? then prev
      else SendOne(prev.tables, ids[|ids| - 1], |ids| - 1, templateId, fault)
  }

  /** `sendCampaign(contactIds, templateId)`. */
  function SendCampaign(t: Tables, ids: seq<nat>, templateId: string, fault: Fault): (r: Outcome<CampaignResult>)
    ensures r.result.Ok? <==> !(fault.FailAt? && fault.step < 2 * |ids|)
    ensures r.result.Ok? ==> r.result.value == CampaignResult(true, |ids|)
    ensures r.result.Err? ==> r.result.error == fault.error
  {
    var o := SendAll(t, ids, templateId, fault);
    SentCount(t, ids, templateId, fault);
    match o.result
    case Ok(n) => Outcome(o.tables, Ok(CampaignResult(true, n)))
    case Err(e) => Outcome(o.tables, Err(e))
  }

  /** The rows the campaign logs for `ids`, the first stamped `stamp`. */
  function CampaignLog(ids: seq<nat>, templateId: string, stamp: nat): (log: seq<MessageRow>)
    ensures |log| == |ids|
    ensures forall k :: 0 <= k < |ids| ==>
              log[k] == MessageRow(stamp + k, ids[k], CampaignContent(templateId), Role.Assistant, MessageStatus.Sent, stamp + k)
  {
    seq(|ids|, k requires 0 <= k < |ids| =>
      MessageRow(stamp + k, ids[k], CampaignContent(templateId), Role.Assistant, MessageStatus.Sent, stamp + k))
  }

  /** A successful iteration: one message appended, the clock advanced by one, and the contact marked at the new time. */
  lemma SendOneOk(p: Tables, id: nat, k: nat, templateId: string, fault: Fault)
    requires SendOne(p, id, k, templateId, fault).result.Ok?
    ensures var q := SendOne(p, id, k, templateId, fault);
            && q.result.value == k + 1
            && q.tables.messages == p.messages + [MessageRow(p.clock, id, CampaignContent(templateId), Role.Assistant, MessageStatus.Sent, p.clock)]
            && q.tables.clock == p.clock + 1 && q.tables.templates == p.templates
            && |q.tables.contacts| == |p.contacts|
            && forall j :: 0 <= j < |p.contacts| ==> q.tables.contacts[j] == MarkRow(id, p.clock + 1)(p.contacts[j])
  {
  }

  /** Marking a contact keeps ids, stamps and e-mails, so the tables stay well formed. */
  lemma MarkSentKeepsValid(t: Tables, id: nat)
    requires Valid(t)
    ensures Valid(MarkSent(t, id))
  {
    var r := MarkSent(t, id);
    forall j | 0 <= j < |t.contacts|
      ensures r.contacts[j].id == t.contacts[j].id && r.contacts[j].createdAt == t.contacts[j].createdAt
           && r.contacts[j].email == t.contacts[j].email
    {
    }
  }

  /** The log of a list is the log of all but its last id, followed by the last id's row. */
  lemma CampaignLogSnoc(ids: seq<nat>, templateId: string, stamp: nat)
    requires |ids| > 0
    ensures var n := |ids| - 1;
            CampaignLog(ids, templateId, stamp)
              == CampaignLog(ids[..n], templateId, stamp) + [MessageRow(stamp + n, ids[n], CampaignContent(templateId), Role.Assistant, MessageStatus.Sent, stamp + n)]
  {
    var n := |ids| - 1;
    var a := CampaignLog(ids, templateId, stamp);
    var b := CampaignLog(ids[..n], templateId, stamp) + [MessageRow(stamp + n, ids[n], CampaignContent(templateId), Role.Assistant, MessageStatus.Sent, stamp + n)];
    forall k | 0 <= k < |a| ensures a[k] == b[k] {
      if k < n {
        assert ids[..n][k] == ids[k];
      }
    }
  }

  /** Appending the next id's row to a log of the ids before it gives the log of all of them. */
  lemma LogGrows(p: Tables, q: Tables, base: seq<MessageRow>, ids: seq<nat>, templateId: string, stamp: nat)
    requires |ids| > 0
    requires p.messages == base + CampaignLog(ids[..|ids| - 1], templateId, stamp) && p.clock == stamp + (|ids| - 1)
    requires q.messages == p.messages + [MessageRow(p.clock, ids[|ids| - 1], CampaignContent(templateId), Role.Assistant, MessageStatus.Sent, p.clock)]
    ensures q.messages == base + CampaignLog(ids, templateId, stamp)
  {
    var frontLog := CampaignLog(ids[..|ids| - 1], templateId, stamp);
    var row := MessageRow(p.clock, ids[|ids| - 1], CampaignContent(templateId), Role.Assistant, MessageStatus.Sent, p.clock);
    CampaignLogSnoc(ids, templateId, stamp);
    assert CampaignLog(ids, templateId, stamp) == frontLog + [row];
    assert (base + frontLog) + [row] == base + (frontLog + [row]);
  }

  /** The last iteration of a non-empty list. */
  lemma SendAllLast(t: Tables, ids: seq<nat>, templateId: string, fault: Fault)
    requires |ids| > 0
    ensures var prev := SendAll(t, ids[..|ids| - 1], templateId, fault);
            SendAll(t, ids, templateId, fault)
              == if prev.result.Err? then prev else SendOne(prev.tables, ids[|ids| - 1], |ids| - 1, templateId, fault)
  {
  }


  // ---- properties of the specification ----

  /**
   * The campaign succeeds exactly when none of its `2 * |ids|` statements fails, and then
   * `sentCount` is the number of ids, duplicates included; otherwise it throws the database's error.
   */
  lemma {:induction false} SentCount(t: Tables, ids: seq<nat>, templateId: string, fault: Fault)
    ensures var o := SendAll(t, ids, templateId, fault);
            (o.result.Ok? <==> !(fault.FailAt? && fault.step < 2 * |ids|))
            && (o.result.Ok? ==> o.result.value == |ids|)
            && (o.result.Err? ==> fault.FailAt? && o.result.error == fault.error)
    decreases |ids|
  {
    if |ids| > 0 {
      SentCount(t, ids[..|ids| - 1], templateId, fault);
    }
  }

  /** A successful campaign appends exactly one placeholder message per id, in order, and changes no earlier message. */
  lemma {:induction false} LogsOnePerId(t: Tables, ids: seq<nat>, templateId: string, fault: Fault)
    requires SendAll(t, ids, templateId, fault).result.Ok?
    ensures var o := SendAll(t, ids, templateId, fault);
            o.tables.messages == t.messages + CampaignLog(ids, templateId, t.clock)
            && o.tables.clock == t.clock + |ids|
            && o.tables.templates == t.templates
    decreases |ids|
  {
    if |ids| > 0 {
      var front := ids[..|ids| - 1];
      var prev := SendAll(t, front, templateId, fault);
      SendAllLast(t, ids, templateId, fault);
      assert prev.result.Ok?;
      LogsOnePerId(t, front, templateId, fault);
      SendOneOk(prev.tables, ids[|ids| - 1], |ids| - 1, templateId, fault);
      LogGrows(prev.tables, SendAll(t, ids, templateId, fault).tables, t.messages, ids, templateId, t.clock);
    }
  }


  /** Contacts whose id is not listed are never touched, whatever happens. */
  lemma {:induction false} UnlistedUnchanged(t: Tables, ids: seq<nat>, templateId: string, fault: Fault)
    ensures var o := SendAll(t, ids, templateId, fault);
            |o.tables.contacts| == |t.contacts|
            && forall j :: 0 <= j < |t.contacts| && t.contacts[j].id !in ids ==> o.tables.contacts[j] == t.contacts[j]
    decreases |ids|
  {
    if |ids| > 0 {
      var front := ids[..|ids| - 1];
      UnlistedUnchanged(t, front, templateId, fault);
      forall j | 0 <= j < |t.contacts| && t.contacts[j].id !in ids
        ensures t.contacts[j].id !in front
      {
        assert forall x :: x in front ==> x in ids;
      }
    }
  }

  /**
   * After a successful campaign every listed contact is `sent`, with a `last_contacted` time taken
   * during the campaign (after its start, at most its end), and every other column of it is as before.
   */
  lemma {:induction false} ListedMarkedSent(t: Tables, ids: seq<nat>, templateId: string, fault: Fault)
    requires SendAll(t, ids, templateId, fault).result.Ok?
    ensures var o := SendAll(t, ids, templateId, fault);
            |o.tables.contacts| == |t.contacts|
            && forall j :: 0 <= j < |t.contacts| && t.contacts[j].id in ids ==>
                 o.tables.contacts[j].status == Status.Sent && o.tables.contacts[j].lastContacted.Some?
                 && t.clock < o.tables.contacts[j].lastContacted.value <= o.tables.clock
                 && o.tables.contacts[j] == t.contacts[j].(status := Status.Sent, lastContacted := o.tables.contacts[j].lastContacted)
    decreases |ids|
  {
    if |ids| > 0 {
      var front := ids[..|ids| - 1];
      var last := ids[|ids| - 1];
      var prev := SendAll(t, front, templateId, fault);
      SendAllLast(t, ids, templateId, fault);
      SendOneOk(prev.tables, last, |ids| - 1, templateId, fault);
      ListedMarkedSent(t, front, templateId, fault);
      UnlistedUnchanged(t, front, templateId, fault);
      LogsOnePerId(t, front, templateId, fault);
      var o := SendAll(t, ids, templateId, fault).tables;
      Seqs.LastMembers(ids);
      forall j | 0 <= j < |t.contacts| && t.contacts[j].id in ids
        ensures o.contacts[j].status == Status.Sent && o.contacts[j].lastContacted.Some?
                && t.clock < o.contacts[j].lastContacted.value <= o.clock
                && o.contacts[j] == t.contacts[j].(status := Status.Sent, lastContacted := o.contacts[j].lastContacted)
      {
        if t.contacts[j].id !in front {
          assert prev.tables.contacts[j] == t.contacts[j];
        }
      }
    }
  }

  /** Once some iterations have succeeded, the later ones only add to what they did: nothing is rolled back. */
  lemma {:induction false} EarlierEffectsKept(t: Tables, ids: seq<nat>, n: nat, templateId: string, fault: Fault)
    requires n <= |ids| && SendAll(t, ids[..n], templateId, fault).result.Ok?
    ensures var part := SendAll(t, ids[..n], templateId, fault).tables;
            var full := SendAll(t, ids, templateId, fault).tables;
            |part.messages| <= |full.messages| && full.messages[..|part.messages|] == part.messages
    decreases |ids| - n
  {
    if n < |ids| {
      var front := ids[..|ids| - 1];
      assert front[..n] == ids[..n];
      EarlierEffectsKept(t, front, n, templateId, fault);
    } else {
      assert ids[..n] == ids;
    }
  }

  /** Once an iteration has failed, the rest of the list changes nothing. */
  lemma {:induction false} ErrorSticks(t: Tables, ids: seq<nat>, n: nat, templateId: string, fault: Fault)
    requires n <= |ids| && SendAll(t, ids[..n], templateId, fault).result.Err?
    ensures SendAll(t, ids, templateId, fault) == SendAll(t, ids[..n], templateId, fault)
    decreases |ids| - n
  {
    if n < |ids| {
      var front := ids[..|ids| - 1];
      assert front[..n] == ids[..n];
      ErrorSticks(t, front, n, templateId, fault);
    } else {
      assert ids[..n] == ids;
    }
  }

  /** One iteration does not read the template table either. */
  lemma SendOneIgnoresTemplates(t: Tables, ts: seq<TemplateRow>, id: nat, k: nat, templateId: string, fault: Fault)
    ensures SendOne(t.(templates := ts), id, k, templateId, fault)
         == var o := SendOne(t, id, k, templateId, fault); o.(tables := o.tables.(templates := ts))
  {
    var t1 := InsertMessage(t, id, CampaignContent(templateId), Role.Assistant, MessageStatus.Sent).0;
    var u1 := InsertMessage(t.(templates := ts), id, CampaignContent(templateId), Role.Assistant, MessageStatus.Sent).0;
    assert u1 == t1.(templates := ts);
    assert MarkSent(u1, id) == MarkSent(t1, id).(templates := ts);
  }

  /** The template table plays no part: an unknown template id gives the same result as a known one. */
  lemma {:induction false} TemplateNeverRead(t: Tables, ts: seq<TemplateRow>, ids: seq<nat>, templateId: string, fault: Fault)
    ensures SendAll(t.(templates := ts), ids, templateId, fault)
         == var o := SendAll(t, ids, templateId, fault); o.(tables := o.tables.(templates := ts))
    decreases |ids|
  {
    if |ids| > 0 {
      var front := ids[..|ids| - 1];
      TemplateNeverRead(t, ts, front, templateId, fault);
      var prev := SendAll(t, front, templateId, fault);
      if prev.result.Ok? {
        SendOneIgnoresTemplates(prev.tables, ts, ids[|ids| - 1], |ids| - 1, templateId, fault);
      }
    }
  }

  /** The campaign keeps the tables well formed: new rows get fresh stamps, updated rows keep theirs. */
  lemma {:induction false} SendAllKeepsValid(t: Tables, ids: seq<nat>, templateId: string, fault: Fault)
    requires Valid(t)
    ensures Valid(SendAll(t, ids, templateId, fault).tables)
    decreases |ids|
  {
    if |ids| > 0 {
      var prev := SendAll(t, ids[..|ids| - 1], templateId, fault);
      SendAllKeepsValid(t, ids[..|ids| - 1], templateId, fault);
      SendAllLast(t, ids, templateId, fault);
      if prev.result.Ok? {
        var t1 := InsertMessage(prev.tables, ids[|ids| - 1], CampaignContent(templateId), Role.Assistant, MessageStatus.Sent).0;
        MarkSentKeepsValid(t1, ids[|ids| - 1]);
      }
    }
  }

  // ---- the loop, run in place ----

  /** One pass of the loop body on the database: the INSERT, then the UPDATE, each of which may fail. */
  method SendOneOn(db: Db, contactId: nat, k: nat, templateId: string, fault: Fault) returns (r: Result<nat, Error>)
    modifies db
    ensures Outcome(db.Snapshot(), r) == SendOne(old(db.Snapshot()), contactId, k, templateId, fault)
  {
    if Fails(fault, 2 * k) {
      return Err(fault.error);
    }
    var _ := db.AddMessage(contactId, CampaignContent(templateId), Role.Assistant, MessageStatus.Sent);
    if Fails(fault, 2 * k + 1) {
      return Err(fault.error);
    }
    ghost var inserted := db.Snapshot();
    db.contacts := MarkSent(db.Snapshot(), contactId).contacts;
    assert db.Snapshot() == MarkSent(inserted, contactId);
    r := Ok(k + 1);
  }

  /** `sendCampaign` on the database: the `for` loop over `contactIds`, pushing each id to `results`. */
  method SendCampaignOn(db: Db, contactIds: seq<nat>, templateId: string, fault: Fault) returns (r: Result<CampaignResult, Error>)
    modifies db
    ensures Outcome(db.Snapshot(), r) == SendCampaign(old(db.Snapshot()), contactIds, templateId, fault)
  {
    ghost var start := db.Snapshot();
    var results: seq<nat> := [];
    var i := 0;
    while i < |contactIds|
      invariant 0 <= i <= |contactIds|
      invariant results == contactIds[..i]
      invariant SendAll(start, contactIds[..i], templateId, fault) == Outcome(db.Snapshot(), Ok(i))
    {
      var contactId := contactIds[i];
      Seqs.PrefixStep(contactIds, i);
      var step := SendOneOn(db, contactId, i, templateId, fault);
      if step.Err? {
        ErrorSticks(start, contactIds, i + 1, templateId, fault);
        return Err(step.error);
      }
      results := results + [contactId];
      i := i + 1;
    }
    assert contactIds[..i] == contactIds;
    r := Ok(CampaignResult(true, |results|));
  }

}
