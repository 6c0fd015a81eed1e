/** The ingestion service as the class it is: drafts, attribution at ingestion time, and the pruning loop. */
module CampaignTrackingService {
  import opened Common
  import opened Attribution
  import opened CampaignEvents

  datatype Reply = Unrecognized | Rejected(inactive: CampaignId) | Duplicate | Unattributed | Recorded(credited: Option<CampaignId>)
                 | Unavailable | WriteFailed

  /** What `resolvePayload` said: no campaign, or one that accepts traffic or not. */
  datatype Resolution = NoCampaign | Resolved(campaign: CampaignId, accepting: bool)

  lemma SplitLast(s: seq<Event>, k: nat)
    requires k < |s|
    ensures s[..k + 1][..k] == s[..k] && s[..k + 1][k] == s[k] && |s[..k + 1]| == k + 1
  {
  }

  /** The record of the identity after a touch: the first touch is kept, the last one replaced by a later one only. */
  ghost predicate Touches(was: map<Identity, Record>, now: map<Identity, Record>, identity: Identity, campaign: CampaignId,
                          at: int, evidence: EventId) {
    && now.Keys == was.Keys + {identity} && (forall other :: other in was && other != identity ==> now[other] == was[other])
    && if identity !in was then now[identity] == Record(campaign, at, evidence, campaign, at, evidence)
       else
         && now[identity].firstCampaign == was[identity].firstCampaign && now[identity].firstAt == was[identity].firstAt
         && now[identity].firstEvidence == was[identity].firstEvidence
         && (if was[identity].lastAt < at
             then now[identity].lastCampaign == campaign && now[identity].lastAt == at && now[identity].lastEvidence == evidence
             else now[identity] == was[identity])
  }

  /** The last of the touches up to a time. */
  ghost predicate IsLatest(touches: seq<Touch>, at: int, t: Touch) {
    t in touches && t.at <= at && forall u :: u in touches && u.at <= at ==> NotAfter(u, t)
  }

  /** Of the touches up to that time the last one is credited, if it is in the window. */
  lemma CreditsLatest(touches: seq<Touch>, at: int, window: nat)
    ensures var credited := DecideAttribution(LastTouch, touches, Query(at, window)).campaign;
            && (credited.Some? <==> exists t :: t in touches && t.at <= at && at - t.at <= window)
            && (credited.Some? ==> exists t :: IsLatest(touches, at, t) && t.campaign == credited.value)
  {
    var q := Query(at, window);
    DecidesByExtreme(LastTouch, touches, q);
    BucketsPartition(LastTouch, touches, q);
    var d := DecideAttribution(LastTouch, touches, q);
    if d.campaign.Some? {
      var t := d.touch.value;
      forall u | u in touches && u.at <= at ensures NotAfter(u, t) {
        if !IsEligible(u, q) { assert u.at < t.at; }
      }
      assert IsLatest(touches, at, t) && IsEligible(t, q);
    }
  }

  class CampaignTrackingService {
    const window: nat
    const rule: Retention
    var events: seq<Event>
    var attributions: map<Identity, Record>
    var memberships: map<Identity, bool>
    var nextId: EventId

    constructor (window: nat, rule: Retention)
      ensures this.window == window && this.rule == rule && Live() == Log([], map[], map[], 0)
    {
      this.window, this.rule := window, rule;
      events, attributions, memberships, nextId := [], map[], map[], 0;
    }

    function Live(): Log
      reads this
    {
      Log(events, attributions, memberships, nextId)
    }

    /** A draft replaces the live state only after the write; ids it consumed stay consumed. */
    method Commit(draft: Log, writes: bool)
      modifies this`events, this`attributions, this`memberships, this`nextId
      ensures Live() == if writes then draft else old(Live()).(nextId := draft.nextId)
    {
      nextId := draft.nextId;
      if writes {
        events, attributions, memberships := draft.events, draft.attributions, draft.memberships;
      }
    }

    method HasEventKey(key: Key) returns (found: bool)
      ensures found == HasKey(events, key)
      ensures found <==> exists i :: 0 <= i < |events| && events[i].key == key
    {
      for i := 0 to |events|
        invariant forall k :: 0 <= k < i ==> events[k].key != key
      {
        if events[i].key == key { return true; }
      }
      return false;
    }

    /** Only touches up to `at` and within the window can be credited. */
    function AttributedCampaign(identity: Identity, at: int): (credited: Option<CampaignId>)
      reads this
      ensures credited.Some? <==> exists t :: t in TouchesOf(events, identity) && t.at <= at && at - t.at <= window
      ensures credited.Some? ==> exists t :: IsLatest(TouchesOf(events, identity), at, t) && t.campaign == credited.value
    {
      CreditsLatest(TouchesOf(events, identity), at, window);
      DecideAttribution(LastTouch, TouchesOf(events, identity), Query(at, window)).campaign
    }

    method Start(payload: Resolution, identity: Identity, at: int, now: int, writes: bool) returns (reply: Reply)
      modifies this`events, this`attributions, this`memberships, this`nextId
      ensures reply.Recorded? ==>
                && payload.Resolved? && payload.accepting && reply.credited == Some(payload.campaign)
                && Live() == RecordStart(old(Live()), payload.campaign, identity, at, now)
                && events == old(events) + [Event(old(nextId), CampaignEvents.Start, Some(payload.campaign), Some(identity), at, now,
                                                  StartKey(payload.campaign, identity))]
                && nextId == old(nextId) + 1 && memberships == old(memberships)
                && Touches(old(attributions), attributions, identity, payload.campaign, at, old(nextId))
      ensures !reply.Recorded? ==> Live() == old(Live()).(nextId := nextId)
      ensures payload.Resolved? && payload.accepting ==>
                reply == if HasKey(old(events), StartKey(payload.campaign, identity)) then Duplicate
                         else if writes then Recorded(Some(payload.campaign)) else WriteFailed
    {
      if payload.NoCampaign? { return Unrecognized; }
      if !payload.accepting { return Rejected(payload.campaign); }
      var key := StartKey(payload.campaign, identity);
      var duplicate := HasEventKey(key);
      if duplicate { return Duplicate; }
      var e := Event(nextId, CampaignEvents.Start, Some(payload.campaign), Some(identity), at, now, key);
      Commit(Ingest(Live(), e), writes);
      return if writes then Recorded(Some(payload.campaign)) else WriteFailed;
    }

    /** An alert is recorded once, for the campaign its user was attributed to when it was set. */
    method AlertCreated(alert: AlertId, identity: Identity, at: int, now: int, writes: bool) returns (reply: Reply)
      modifies this`events, this`attributions, this`memberships, this`nextId
      ensures old(AttributedCampaign(identity, at)).None? ==> reply == Unattributed && Live() == old(Live())
      ensures old(AttributedCampaign(identity, at)).Some? ==>
                reply == if HasKey(old(events), AlertKey(alert)) then Duplicate
                         else if writes then Recorded(old(AttributedCampaign(identity, at))) else WriteFailed
      ensures reply.Recorded? ==>
                && Live() == RecordAlertCreated(old(Live()), alert, identity, old(AttributedCampaign(identity, at)).value, at, now)
                && events == old(events) + [Event(old(nextId), CampaignEvents.AlertCreated, reply.credited, Some(identity), at, now,
                                                  AlertKey(alert))]
                && nextId == old(nextId) + 1 && memberships == old(memberships) && attributions == old(attributions)
      ensures !reply.Recorded? ==> Live() == old(Live()).(nextId := nextId)
    {
      var credited := AttributedCampaign(identity, at);
      if credited.None? { return Unattributed; }
      var key := AlertKey(alert);
      var duplicate := HasEventKey(key);
      if duplicate { return Duplicate; }
      var e := Event(nextId, CampaignEvents.AlertCreated, credited, Some(identity), at, now, key);
      Commit(Ingest(Live(), e), writes);
      return if writes then Recorded(credited) else WriteFailed;
    }

    /** A join is recorded only on an observed change from outside to inside; `answer` is what the platform said. */
    method VerifyMembership(identity: Identity, answer: Option<bool>, now: int, writes: bool) returns (reply: Reply)
      modifies this`events, this`attributions, this`memberships, this`nextId
      ensures answer.None? ==> reply == Unavailable && Live() == old(Live())
      ensures answer.Some? && writes ==>
                Live() == RecordMembership(old(Live()), identity, answer.value, old(AttributedCampaign(identity, now)),
                                           identity in old(memberships) && !old(memberships)[identity] && answer.value, now)
      ensures answer.Some? && !writes ==> reply == Unavailable && Live() == old(Live()).(nextId := nextId)
      ensures reply.Recorded? ==> answer == Some(true) && identity in old(memberships) && !old(memberships)[identity]
      ensures answer.Some? && writes ==> memberships == old(memberships)[identity := answer.value]
      ensures reply.Recorded? ==>
                && reply.credited == old(AttributedCampaign(identity, now))
                && events == old(events) + [Event(old(nextId), ChannelJoin, reply.credited, Some(identity), now, now,
                                                  JoinKey(identity, reply.credited, now))]
                && nextId == old(nextId) + 1
                && if reply.credited.None? then attributions == old(attributions)
                   else Touches(old(attributions), attributions, identity, reply.credited.value, now, old(nextId))
      ensures !reply.Recorded? ==> events == old(events) && attributions == old(attributions)
    {
      if answer.None? { return Unavailable; }
      var credited := AttributedCampaign(identity, now);
      var transition := identity in memberships && !memberships[identity] && answer.value;
      var seen := Live().(memberships := memberships[identity := answer.value]);
      if !transition {
        Commit(seen, writes);
        return if writes then Duplicate else Unavailable;
      }
      var key := JoinKey(identity, credited, now);
      var duplicate := HasEventKey(key);
      if duplicate {
        Commit(seen, writes);
        return if writes then Duplicate else Unavailable;
      }
      Commit(Ingest(seen, Event(nextId, ChannelJoin, credited, Some(identity), now, now, key)), writes);
      return if writes then Recorded(credited) else Unavailable;
    }

    /** A raw click has no natural key, so it always is an event of its own; then old clicks go. */
    method PersistClick(campaign: CampaignId, now: int, writes: bool) returns (recorded: bool)
      modifies this`events, this`attributions, this`memberships, this`nextId
      ensures recorded == writes && nextId == old(nextId) + 1
      ensures Live() == if writes then RecordClick(old(Live()), campaign, now, rule) else old(Live()).(nextId := nextId)
      ensures writes ==>
                && attributions == old(attributions) && memberships == old(memberships)
                && events == Pruned(old(events) + [Event(old(nextId), Click, Some(campaign), None, now, now,
                                                         ClickKey(campaign, old(nextId)))], now, rule)
    {
      var e := Event(nextId, Click, Some(campaign), None, now, now, ClickKey(campaign, nextId));
      var draft := Ingest(Live(), e);
      var kept := PruneClicks(draft.events, now, rule);
      Commit(draft.(events := kept), writes);
      return writes;
    }
  }

  /** The pruning loop with its per-campaign counters: newest first, expired clicks do not use up the quota. */
  method PruneClicks(events: seq<Event>, now: int, rule: Retention) returns (kept: seq<Event>)
    ensures kept == Pruned(events, now, rule)
  {
    if rule.age == 0 && rule.perCampaign == 0 { return events; }
    var clicks := NewestFirst(ClicksOf(events));
    var gone: set<EventId> := {};
    var used: map<Option<CampaignId>, nat> := map[];
    for k := 0 to |clicks|
      invariant gone == Excess(clicks[..k], now, rule)
      invariant forall c :: (if c in used then used[c] else 0) == Quota(clicks[..k], c, now, rule)
    {
      SplitLast(clicks, k);
      var e := clicks[k];
      var count := if e.campaign in used then used[e.campaign] else 0;
      if Expired(e, now, rule) || (rule.perCampaign > 0 && count >= rule.perCampaign) {
        gone := gone + {e.id};
      } else {
        used := used[e.campaign := count + 1];
      }
    }
    assert clicks[..|clicks|] == clicks;
    return Without(events, gone);
  }

  /** The counter of one campaign: its unexpired clicks so far, up to the quota. */
  function Quota(s: seq<Event>, campaign: Option<CampaignId>, now: int, rule: Retention): nat {
    var all := Unexpired(s, campaign, now, rule);
    if rule.perCampaign > 0 && all > rule.perCampaign then rule.perCampaign else all
  }
}
