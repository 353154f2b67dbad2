/**
 * The mounted `POST /send` handler (server/routes/campaign.js). It runs the same loop as
 * `CampaignService.sendCampaign`, so it is modelled by calling it, inside its own `try`/`catch`.
 */
module CampaignRoute {
  import opened Wrappers
  import opened ServerDb
  import opened Http
  import opened CampaignService

  /** `POST /send` with body `{ contactIds, templateId }`. */
  method SendRoute(db: Db, contactIds: seq<nat>, templateId: string, fault: Fault) returns (reply: Reply<CampaignResult>)
    modifies db
    ensures var o := SendCampaign(old(db.Snapshot()), contactIds, templateId, fault);
            db.Snapshot() == o.tables && reply == Respond(o.result)
  {
    var r := SendCampaignOn(db, contactIds, templateId, fault);
    reply := Respond(r);
  }

  /** Without a failing statement the answer is `{ success: true, sentCount: contactIds.length }`, whatever templates exist. */
  lemma SendAnswer(t: Tables, contactIds: seq<nat>, templateId: string)
    ensures Respond(SendCampaign(t, contactIds, templateId, NoFault).result)
         == Reply(200, Json(CampaignResult(true, |contactIds|)))
  {
    SentCount(t, contactIds, templateId, NoFault);
  }

  /**
   * A failing statement answers 500 with its message; the messages logged by the iterations
   * before it stay in the table.
   */
  lemma SendFailure(t: Tables, contactIds: seq<nat>, n: nat, templateId: string, e: Error)
    requires n < |contactIds|
    ensures var o := SendCampaign(t, contactIds, templateId, FailAt(2 * n, e));
            var part := SendAll(t, contactIds[..n], templateId, FailAt(2 * n, e)).tables;
            && Respond(o.result) == Reply(500, ErrorJson(e.message))
            && |part.messages| == |t.messages| + n
            && |part.messages| <= |o.tables.messages| && o.tables.messages[..|part.messages|] == part.messages
  {
    var f := FailAt(2 * n, e);
    SentCount(t, contactIds, templateId, f);
    SentCount(t, contactIds[..n], templateId, f);
    LogsOnePerId(t, contactIds[..n], templateId, f);
    EarlierEffectsKept(t, contactIds, n, templateId, f);
  }
}
