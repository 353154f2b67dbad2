/**
 * The dashboard counters of the application shell (src/App.tsx) and the guard in front of the
 * campaign send. Each counter is the length of a status filter over the contact list.
 */
module AppStats {
  import opened Wrappers
  import opened Types
  import Seqs

  datatype EmailStats = EmailStats(totalContacts: nat, emailsSent: nat, emailsOpened: nat, replies: nat, bounced: nat)

  function WasSent(c: Contact): bool { c.status != New }
  function WasOpened(c: Contact): bool { c.status == Opened || c.status == Replied }
  function HasReplied(c: Contact): bool { c.status == Replied }
  function HasBounced(c: Contact): bool { c.status == Bounced }

  /** The number of contacts satisfying `p`. */
  function Count(cs: seq<Contact>, p: Contact -> bool): (n: nat)
    ensures n <= |cs|
  {
    |Seqs.Filter(cs, p)|
  }

  /** `stats`. */
  function Stats(cs: seq<Contact>): (s: EmailStats)
    ensures s.totalContacts == |cs|
    ensures s.emailsSent == Count(cs, WasSent) && s.emailsOpened == Count(cs, WasOpened)
    ensures s.replies == Count(cs, HasReplied) && s.bounced == Count(cs, HasBounced)
  {
    EmailStats(|cs|, Count(cs, WasSent), Count(cs, WasOpened), Count(cs, HasReplied), Count(cs, HasBounced))
  }

  /** A filter by a weaker predicate keeps at least as many elements. */
  lemma {:induction false} CountMonotone(cs: seq<Contact>, p: Contact -> bool, q: Contact -> bool)
    requires forall c :: p(c) ==> q(c)
    ensures Count(cs, p) <= Count(cs, q)
    decreases |cs|
  {
    if |cs| > 0 {
      CountMonotone(cs[1..], p, q);
    }
  }

  /** Two predicates that never hold together and both imply a third count at most what the third counts. */
  lemma {:induction false} CountDisjoint(cs: seq<Contact>, p: Contact -> bool, q: Contact -> bool, r: Contact -> bool)
    requires forall c :: !(p(c) && q(c))
    requires forall c :: p(c) ==> r(c)
    requires forall c :: q(c) ==> r(c)
    ensures Count(cs, p) + Count(cs, q) <= Count(cs, r)
    decreases |cs|
  {
    if |cs| > 0 {
      CountDisjoint(cs[1..], p, q, r);
    }
  }

  /** The counters form a funnel: replies within opened within sent within all contacts. */
  lemma StatsFunnel(cs: seq<Contact>)
    ensures var s := Stats(cs);
            s.replies <= s.emailsOpened <= s.emailsSent <= s.totalContacts
  {
    CountMonotone(cs, HasReplied, WasOpened);
    CountMonotone(cs, WasOpened, WasSent);
  }

  /** Opened and bounced contacts are disjoint parts of the sent ones. */
  lemma OpenedAndBouncedWithinSent(cs: seq<Contact>)
    ensures var s := Stats(cs);
            s.emailsOpened + s.bounced <= s.emailsSent
  {
    CountDisjoint(cs, WasOpened, HasBounced, WasSent);
  }

  function IsNew(c: Contact): bool { c.status == New }
  function StillSent(c: Contact): bool { c.status == Sent }

  /** Every status counts once: the sent counter is split by opened, bounced and no reaction yet, and new contacts make up the rest. */
  lemma {:induction false} StatusesPartition(cs: seq<Contact>)
    ensures var s := Stats(cs);
            && s.emailsSent == Count(cs, StillSent) + s.emailsOpened + s.bounced
            && s.totalContacts == Count(cs, IsNew) + s.emailsSent
    decreases |cs|
  {
    if |cs| > 0 {
      StatusesPartition(cs[1..]);
      CountStep(cs, StillSent);
      CountStep(cs, WasSent);
      CountStep(cs, WasOpened);
      CountStep(cs, HasBounced);
      CountStep(cs, IsNew);
    }
  }

  /** The count of a non-empty list: its head, then its tail. */
  lemma CountStep(cs: seq<Contact>, p: Contact -> bool)
    requires |cs| > 0
    ensures Count(cs, p) == (if p(cs[0]) then 1 else 0) + Count(cs[1..], p)
  {
  }

  /** The campaign call `handleSendCampaign` makes. */
  datatype SendCall = SendCall(contactIds: seq<string>, templateId: string)

  /** `handleSendCampaign`: without a selected template (an empty id counts as none) no API call is made. */
  function SendCampaignCall(selectedTemplate: Option<string>, contactIds: seq<string>): (call: Option<SendCall>)
    ensures call.None? <==> !Truthy(selectedTemplate)
    ensures call.Some? ==> call.value == SendCall(contactIds, selectedTemplate.value)
  {
    if Truthy(selectedTemplate) then Some(SendCall(contactIds, selectedTemplate.value)) else None
  }
}
