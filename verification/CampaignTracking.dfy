/** Ingestion over every run: idempotency, the attribution record against the log, and click retention. */
module CampaignTracking {
  import opened Common
  import opened Attribution
  import opened CampaignEvents

  // --- runs --------------------------------------------------------------------------------------------------------

  /**
   * One ingestion, or a restart. A failed write discards the draft but not the ids it consumed, so the live log is
   * always the written one except for the id sequence: a reload takes that from the document, where it may lag, but
   * it is above every stored id.
   */
  datatype Action =
    | Started(campaign: CampaignId, identity: Identity, at: int, now: int, ok: bool)
    | AlertSet(alert: AlertId, identity: Identity, credited: CampaignId, at: int, now: int, ok: bool)
    | Observed(identity: Identity, member: bool, joined: Option<CampaignId>, transition: bool, now: int, ok: bool)
    | Clicked(campaign: CampaignId, now: int, rule: Retention, ok: bool)
    | Restart(next: EventId)

  predicate Enabled(log: Log, a: Action) {
    a.Restart? ==> a.next <= log.nextId && forall i :: 0 <= i < |log.events| ==> log.events[i].id < a.next
  }

  function Committed(log: Log, a: Action): Log {
    match a
    case Started(campaign, identity, at, now, _) => RecordStart(log, campaign, identity, at, now)
    case AlertSet(alert, identity, credited, at, now, _) => RecordAlertCreated(log, alert, identity, credited, at, now)
    case Observed(identity, member, joined, transition, now, _) =>
      RecordMembership(log, identity, member, joined, transition, now)
    case Clicked(campaign, now, rule, _) => RecordClick(log, campaign, now, rule)
    case Restart(next) => log.(nextId := next)
  }

  function Step(log: Log, a: Action): Log {
    if a.Restart? || a.ok then Committed(log, a) else log.(nextId := Committed(log, a).nextId)
  }

  predicate Valid(log: Log, actions: seq<Action>)
    decreases |actions|
  {
    actions == [] || (Enabled(log, actions[0]) && Valid(Step(log, actions[0]), actions[1..]))
  }

  function Run(log: Log, actions: seq<Action>): Log
    decreases |actions|
  {
    if actions == [] then log else Run(Step(log, actions[0]), actions[1..])
  }

  function Empty(): Log {
    Log([], map[], map[], 0)
  }

  // --- the invariant -------------------------------------------------------------------------------------------------

  predicate KeyFits(e: Event) {
    match e.stage
    case Start => e.campaign.Some? && e.identity.Some? && e.key == StartKey(e.campaign.value, e.identity.value)
    case AlertCreated => e.key.AlertKey?
    case ChannelJoin => e.key.JoinKey?
    case Click => e.campaign.Some? && e.identity.None? && e.key == ClickKey(e.campaign.value, e.id)
  }

  ghost predicate EventsOk(events: seq<Event>, nextId: EventId) {
    && (forall i :: 0 <= i < |events| ==> KeyFits(events[i]) && events[i].id < nextId)
    && forall i, k :: 0 <= i < k < |events| ==> events[i].id != events[k].id && events[i].key != events[k].key
  }

  /** The most recent touch, and of several at that time the one ingested first. */
  function Latest(touches: seq<Touch>): Touch
    requires touches != []
  {
    if |touches| == 1 then touches[0]
    else
      var before := Latest(touches[..|touches| - 1]);
      if touches[|touches| - 1].at > before.at then touches[|touches| - 1] else before
  }

  function RecordOf(touches: seq<Touch>): Record
    requires touches != []
  {
    var first, last := touches[0], Latest(touches);
    Record(first.campaign, first.at, first.eventId, last.campaign, last.at, last.eventId)
  }

  ghost predicate AttributionOk(log: Log, identity: Identity) {
    var touches := TouchesOf(log.events, identity);
    if touches == [] then identity !in log.attributions
    else identity in log.attributions && log.attributions[identity] == RecordOf(touches)
  }

  ghost predicate Inv(log: Log) {
    EventsOk(log.events, log.nextId) && forall identity :: AttributionOk(log, identity)
  }

  // --- ingestion keeps it ----------------------------------------------------------------------------------------------

  /** Folding one more touch into the record gives the record of the longer list. */
  lemma RecordNext(touches: seq<Touch>, touch: Touch, identity: Identity, attributions: map<Identity, Record>)
    requires if touches == [] then identity !in attributions
             else identity in attributions && attributions[identity] == RecordOf(touches)
    ensures identity in ApplyTouch(attributions, identity, touch)
    ensures ApplyTouch(attributions, identity, touch)[identity] == RecordOf(touches + [touch])
  {
    assert (touches + [touch])[..|touches|] == touches;
    if touches == [] {
      assert touches + [touch] == [touch];
    } else {
      assert (touches + [touch])[0] == touches[0];
    }
  }

  lemma IngestKeeps(log: Log, e: Event)
    requires Inv(log) && e.id == log.nextId && KeyFits(e) && !HasKey(log.events, e.key)
    ensures Inv(Ingest(log, e))
  {
    forall identity ensures AttributionOk(Ingest(log, e), identity) {
      assert AttributionOk(log, identity);
      TouchesAppend(log.events, e, identity);
      if IsTouch(e, identity) {
        RecordNext(TouchesOf(log.events, identity), ToTouch(e), identity, log.attributions);
      } else {
        assert TouchesOf(log.events, identity) + [] == TouchesOf(log.events, identity);
      }
    }
  }

  lemma {:induction false} WithoutMembers(events: seq<Event>, ids: set<EventId>)
    ensures forall e :: e in Without(events, ids) <==> e in events && e.id !in ids
    decreases |events|
  {
    if events != [] {
      WithoutMembers(events[..|events| - 1], ids);
      assert events == events[..|events| - 1] + [events[|events| - 1]];
    }
  }

  ghost predicate Unique(events: seq<Event>) {
    forall i, k :: 0 <= i < k < |events| ==> events[i].id != events[k].id && events[i].key != events[k].key
  }

  lemma {:induction false} WithoutUnique(events: seq<Event>, ids: set<EventId>)
    requires Unique(events)
    ensures Unique(Without(events, ids))
    decreases |events|
  {
    if events != [] {
      var n := |events| - 1;
      WithoutUnique(events[..n], ids);
      WithoutMembers(events[..n], ids);
      var kept := Without(events[..n], ids);
      forall i | 0 <= i < |kept| ensures kept[i].id != events[n].id && kept[i].key != events[n].key {
        assert kept[i] in kept;
        var k :| 0 <= k < n && events[..n][k] == kept[i];
      }
    }
  }

  lemma WithoutKeeps(events: seq<Event>, nextId: EventId, ids: set<EventId>)
    requires EventsOk(events, nextId)
    ensures EventsOk(Without(events, ids), nextId)
  {
    WithoutUnique(events, ids);
    WithoutMembers(events, ids);
    var kept := Without(events, ids);
    forall i | 0 <= i < |kept| ensures KeyFits(kept[i]) && kept[i].id < nextId {
      assert kept[i] in kept;
      var k :| 0 <= k < |events| && events[k] == kept[i];
    }
  }

  /** Removing events that are no touches leaves every list of touches as it is. */
  lemma {:induction false} WithoutTouches(events: seq<Event>, ids: set<EventId>, identity: Identity)
    requires forall i :: 0 <= i < |events| && events[i].id in ids ==> !IsTouch(events[i], identity)
    ensures TouchesOf(Without(events, ids), identity) == TouchesOf(events, identity)
    decreases |events|
  {
    if events != [] {
      var n := |events| - 1;
      WithoutTouches(events[..n], ids, identity);
      if events[n].id !in ids {
        TouchesAppend(Without(events[..n], ids), events[n], identity);
      } else {
        assert Without(events[..n], ids) + [] == Without(events[..n], ids);
      }
    }
  }

  // --- what retention removes --------------------------------------------------------------------------------------------

  lemma {:induction false} ClicksMembers(events: seq<Event>)
    ensures forall e :: e in ClicksOf(events) <==> e in events && e.stage == Click
    decreases |events|
  {
    if events != [] {
      ClicksMembers(events[1..]);
      assert events == [events[0]] + events[1..];
    }
  }

  ghost predicate Descending(s: seq<Event>) {
    forall i, k :: 0 <= i < k < |s| ==> s[i].recordedAt >= s[k].recordedAt
  }

  ghost predicate DistinctIds(s: seq<Event>) {
    forall i, k :: 0 <= i < k < |s| ==> s[i].id != s[k].id
  }

  lemma {:induction false} InsertClickOk(x: Event, s: seq<Event>)
    requires Descending(s) && DistinctIds(s) && forall i :: 0 <= i < |s| ==> s[i].id != x.id
    ensures forall e :: e in InsertClick(x, s) <==> e == x || e in s
    ensures Descending(InsertClick(x, s)) && DistinctIds(InsertClick(x, s))
    decreases |s|
  {
    if s != [] && x.recordedAt < s[0].recordedAt {
      InsertClickOk(x, s[1..]);
      assert s == [s[0]] + s[1..];
      var inner := InsertClick(x, s[1..]);
      forall k | 0 <= k < |inner| ensures s[0].recordedAt >= inner[k].recordedAt && s[0].id != inner[k].id {
        assert inner[k] in inner;
        if inner[k] != x {
          var j :| 0 <= j < |s[1..]| && s[1..][j] == inner[k];
          assert s[j + 1] == inner[k];
        }
      }
    }
  }

  lemma {:induction false} NewestFirstOk(s: seq<Event>)
    requires DistinctIds(s)
    ensures forall e :: e in NewestFirst(s) <==> e in s
    ensures Descending(NewestFirst(s)) && DistinctIds(NewestFirst(s))
    decreases |s|
  {
    if s != [] {
      NewestFirstOk(s[1..]);
      assert s == [s[0]] + s[1..];
      var rest := NewestFirst(s[1..]);
      forall i | 0 <= i < |rest| ensures rest[i].id != s[0].id {
        assert rest[i] in rest;
        var k :| 0 <= k < |s[1..]| && s[1..][k] == rest[i];
        assert s[k + 1] == rest[i];
      }
      InsertClickOk(s[0], rest);
    }
  }

  lemma {:induction false} ClicksDistinct(events: seq<Event>)
    requires DistinctIds(events)
    ensures DistinctIds(ClicksOf(events))
    decreases |events|
  {
    if events != [] {
      ClicksDistinct(events[1..]);
      ClicksMembers(events[1..]);
      var rest := ClicksOf(events[1..]);
      forall i | 0 <= i < |rest| ensures rest[i].id != events[0].id {
        assert rest[i] in rest;
        var k :| 0 <= k < |events[1..]| && events[1..][k] == rest[i];
        assert events[k + 1] == rest[i];
      }
    }
  }

  lemma {:induction false} ExcessAt(s: seq<Event>, now: int, rule: Retention, k: nat)
    requires DistinctIds(s) && k < |s|
    ensures s[k].id in Excess(s, now, rule) <==> Goes(s[..k], s[k], now, rule)
    decreases |s|
  {
    var n := |s| - 1;
    if k < n {
      ExcessAt(s[..n], now, rule, k);
      assert s[..n][..k] == s[..k];
    } else {
      ExcessFresh(s[..n], now, rule, s[n].id);
    }
  }

  lemma {:induction false} ExcessFresh(s: seq<Event>, now: int, rule: Retention, id: EventId)
    requires forall j :: 0 <= j < |s| ==> s[j].id != id
    ensures id !in Excess(s, now, rule)
    decreases |s|
  {
    if s != [] {
      ExcessFresh(s[..|s| - 1], now, rule, id);
    }
  }

  lemma {:induction false} UnexpiredGrows(s: seq<Event>, campaign: Option<CampaignId>, now: int, rule: Retention, j: nat, i: nat)
    requires j < i <= |s| && s[j].campaign == campaign && !Expired(s[j], now, rule)
    ensures Unexpired(s[..j], campaign, now, rule) < Unexpired(s[..i], campaign, now, rule)
    decreases i
  {
    assert s[..i][..i - 1] == s[..i - 1];
    if j < i - 1 {
      UnexpiredGrows(s, campaign, now, rule, j, i - 1);
    }
  }

  /** The ids of the clicks of one campaign that are not expired, and of those that stay. */
  function UnexpiredIds(s: seq<Event>, campaign: Option<CampaignId>, now: int, rule: Retention): set<EventId> {
    set k | 0 <= k < |s| && s[k].campaign == campaign && !Expired(s[k], now, rule) :: s[k].id
  }

  function KeptIds(s: seq<Event>, campaign: Option<CampaignId>, now: int, rule: Retention): set<EventId> {
    set k | 0 <= k < |s| && s[k].campaign == campaign && !Goes(s[..k], s[k], now, rule) :: s[k].id
  }

  lemma UnexpiredNext(s: seq<Event>, campaign: Option<CampaignId>, now: int, rule: Retention)
    requires s != [] && DistinctIds(s)
    ensures var last := s[|s| - 1];
            UnexpiredIds(s, campaign, now, rule) ==
            UnexpiredIds(s[..|s| - 1], campaign, now, rule) +
            (if last.campaign == campaign && !Expired(last, now, rule) then {last.id} else {})
    ensures s[|s| - 1].id !in UnexpiredIds(s[..|s| - 1], campaign, now, rule)
  {
    var n := |s| - 1;
    forall id | id in UnexpiredIds(s[..n], campaign, now, rule) ensures id in UnexpiredIds(s, campaign, now, rule) {
      var k :| 0 <= k < n && s[..n][k].campaign == campaign && !Expired(s[..n][k], now, rule) && s[..n][k].id == id;
      assert s[k].id == id;
    }
    forall id | id in UnexpiredIds(s, campaign, now, rule) && id != s[n].id
      ensures id in UnexpiredIds(s[..n], campaign, now, rule)
    {
      var k :| 0 <= k < |s| && s[k].campaign == campaign && !Expired(s[k], now, rule) && s[k].id == id;
      assert s[..n][k].id == id;
    }
  }

  lemma KeptNext(s: seq<Event>, campaign: Option<CampaignId>, now: int, rule: Retention)
    requires s != [] && DistinctIds(s)
    ensures var n := |s| - 1;
            KeptIds(s, campaign, now, rule) ==
            KeptIds(s[..n], campaign, now, rule) +
            (if s[n].campaign == campaign && !Goes(s[..n], s[n], now, rule) then {s[n].id} else {})
    ensures s[|s| - 1].id !in KeptIds(s[..|s| - 1], campaign, now, rule)
  {
    var n := |s| - 1;
    forall id | id in KeptIds(s[..n], campaign, now, rule) ensures id in KeptIds(s, campaign, now, rule) {
      var k :| 0 <= k < n && s[..n][k].campaign == campaign && !Goes(s[..n][..k], s[..n][k], now, rule) && s[..n][k].id == id;
      assert s[..n][..k] == s[..k] && s[k].id == id;
    }
    forall id | id in KeptIds(s, campaign, now, rule) && id != s[n].id ensures id in KeptIds(s[..n], campaign, now, rule) {
      var k :| 0 <= k < |s| && s[k].campaign == campaign && !Goes(s[..k], s[k], now, rule) && s[k].id == id;
      assert s[..n][..k] == s[..k] && s[..n][k].id == id;
    }
  }

  lemma {:induction false} UnexpiredCounted(s: seq<Event>, campaign: Option<CampaignId>, now: int, rule: Retention)
    requires DistinctIds(s)
    ensures |UnexpiredIds(s, campaign, now, rule)| == Unexpired(s, campaign, now, rule)
    decreases |s|
  {
    if s != [] {
      UnexpiredCounted(s[..|s| - 1], campaign, now, rule);
      UnexpiredNext(s, campaign, now, rule);
    }
  }

  /** The quota is filled as far as there are clicks to fill it. */
  lemma {:induction false} QuotaFilled(s: seq<Event>, campaign: Option<CampaignId>, now: int, rule: Retention)
    requires DistinctIds(s)
    ensures |KeptIds(s, campaign, now, rule)| ==
            if rule.perCampaign > 0 && Unexpired(s, campaign, now, rule) > rule.perCampaign then rule.perCampaign
            else Unexpired(s, campaign, now, rule)
    decreases |s|
  {
    if s != [] {
      QuotaFilled(s[..|s| - 1], campaign, now, rule);
      KeptNext(s, campaign, now, rule);
    }
  }

  /** Exactly the events that pruning lets go: clicks that are expired or beyond the quota. */
  lemma PrunedMembers(events: seq<Event>, nextId: EventId, now: int, rule: Retention)
    requires EventsOk(events, nextId)
    ensures forall e :: e in Pruned(events, now, rule) ==> e in events
    ensures forall e :: e in events && e.stage != Click ==> e in Pruned(events, now, rule)
    ensures rule.age == 0 && rule.perCampaign == 0 ==> Pruned(events, now, rule) == events
    ensures rule.age > 0 || rule.perCampaign > 0 ==>
              var s := NewestFirst(ClicksOf(events));
              && Descending(s) && DistinctIds(s) && (forall e :: e in s <==> e in events && e.stage == Click)
              && forall k :: 0 <= k < |s| ==> (s[k] in Pruned(events, now, rule) <==> !Goes(s[..k], s[k], now, rule))
  {
    ClicksDistinct(events);
    NewestFirstOk(ClicksOf(events));
    ClicksMembers(events);
    var s := NewestFirst(ClicksOf(events));
    var gone := Excess(s, now, rule);
    WithoutMembers(events, gone);
    forall k | 0 <= k < |s| ensures s[k].id in gone <==> Goes(s[..k], s[k], now, rule) {
      ExcessAt(s, now, rule, k);
    }
    forall k | 0 <= k < |s| ensures s[k] in events {
      assert s[k] in s;
    }
    forall e | e in events && e.stage != Click ensures e.id !in gone {
      forall j | 0 <= j < |s| ensures s[j].id != e.id {
        assert s[j] in s && s[j] in events && s[j] != e;
        var a :| 0 <= a < |events| && events[a] == s[j];
        var b :| 0 <= b < |events| && events[b] == e;
      }
      ExcessFresh(s, now, rule, e.id);
    }
  }

  lemma PruneKeeps(log: Log, now: int, rule: Retention)
    requires Inv(log)
    ensures Inv(log.(events := Pruned(log.events, now, rule)))
  {
    var after := log.(events := Pruned(log.events, now, rule));
    if rule.age > 0 || rule.perCampaign > 0 {
      var s := NewestFirst(ClicksOf(log.events));
      var gone := Excess(s, now, rule);
      WithoutKeeps(log.events, log.nextId, gone);
      PrunedMembers(log.events, log.nextId, now, rule);
      WithoutMembers(log.events, gone);
      forall identity ensures AttributionOk(after, identity) {
        forall i | 0 <= i < |log.events| && log.events[i].id in gone ensures !IsTouch(log.events[i], identity) {
          assert log.events[i] in log.events && log.events[i] !in Pruned(log.events, now, rule);
        }
        WithoutTouches(log.events, gone, identity);
        assert AttributionOk(log, identity);
      }
    }
  }

  /**
   * Of each campaign exactly the newest unexpired clicks stay: what stays is unexpired, and no unexpired click that
   * goes is newer than one that stays. How many stay is `QuotaOfClicksStays`.
   */
  lemma NewestClicksStay(events: seq<Event>, nextId: EventId, now: int, rule: Retention, x: Event, y: Event)
    requires EventsOk(events, nextId) && (rule.age > 0 || rule.perCampaign > 0)
    requires x in events && x.stage == Click && y in events && y.stage == Click && x.campaign == y.campaign
    requires x in Pruned(events, now, rule) && y !in Pruned(events, now, rule)
    ensures !Expired(x, now, rule)
    ensures !Expired(y, now, rule) ==> y.recordedAt <= x.recordedAt && rule.perCampaign > 0
  {
    PrunedMembers(events, nextId, now, rule);
    var s := NewestFirst(ClicksOf(events));
    assert x in s && y in s;
    var i :| 0 <= i < |s| && s[i] == x;
    var j :| 0 <= j < |s| && s[j] == y;
    if !Expired(y, now, rule) {
      StaysBeforeGoes(s, now, rule, i, j);
    }
  }

  /** By age alone: a click goes exactly when it was recorded more than `age` before. */
  lemma OldClicksGo(events: seq<Event>, nextId: EventId, now: int, rule: Retention, x: Event)
    requires EventsOk(events, nextId) && x in events && x.stage == Click
    ensures rule.age > 0 && x.recordedAt + rule.age < now ==> x !in Pruned(events, now, rule)
    ensures rule.perCampaign == 0 ==>
              (x in Pruned(events, now, rule) <==> rule.age == 0 || x.recordedAt + rule.age >= now)
    ensures Expired(x, now, rule) <==> rule.age > 0 && x.recordedAt + rule.age < now
  {
    PrunedMembers(events, nextId, now, rule);
    if rule.age > 0 || rule.perCampaign > 0 {
      var s := NewestFirst(ClicksOf(events));
      assert x in s;
      var k :| 0 <= k < |s| && s[k] == x;
      assert s[k] in Pruned(events, now, rule) <==> !Goes(s[..k], s[k], now, rule);
    }
  }

  lemma StaysBeforeGoes(s: seq<Event>, now: int, rule: Retention, i: nat, j: nat)
    requires i < |s| && j < |s| && s[i].campaign == s[j].campaign && !Expired(s[j], now, rule)
    requires !Goes(s[..i], s[i], now, rule) && Goes(s[..j], s[j], now, rule)
    ensures i < j
  {
    if j < i {
      UnexpiredGrows(s, s[i].campaign, now, rule, j, i);
    }
  }

  /** The ids of the clicks of one campaign. */
  function ClickIds(events: seq<Event>, campaign: Option<CampaignId>): set<EventId> {
    set i | 0 <= i < |events| && events[i].stage == Click && events[i].campaign == campaign :: events[i].id
  }

  function FreshClickIds(events: seq<Event>, campaign: Option<CampaignId>, now: int, rule: Retention): set<EventId> {
    set i | 0 <= i < |events| && events[i].stage == Click && events[i].campaign == campaign && !Expired(events[i], now, rule)
      :: events[i].id
  }

  /** As many clicks of a campaign stay as it has unexpired ones, up to the quota. */
  lemma QuotaOfClicksStays(events: seq<Event>, nextId: EventId, campaign: Option<CampaignId>, now: int, rule: Retention)
    requires EventsOk(events, nextId) && (rule.age > 0 || rule.perCampaign > 0)
    ensures var unexpired := |FreshClickIds(events, campaign, now, rule)|;
            |ClickIds(Pruned(events, now, rule), campaign)| ==
            if rule.perCampaign > 0 && unexpired > rule.perCampaign then rule.perCampaign else unexpired
  {
    PrunedMembers(events, nextId, now, rule);
    var s := NewestFirst(ClicksOf(events));
    UnexpiredCounted(s, campaign, now, rule);
    QuotaFilled(s, campaign, now, rule);
    FreshIds(events, s, campaign, now, rule);
    StayingIds(Pruned(events, now, rule), s, campaign, now, rule);
  }

  lemma FreshIds(events: seq<Event>, s: seq<Event>, campaign: Option<CampaignId>, now: int, rule: Retention)
    requires forall e :: e in s <==> e in events && e.stage == Click
    ensures FreshClickIds(events, campaign, now, rule) == UnexpiredIds(s, campaign, now, rule)
  {
    forall id | id in FreshClickIds(events, campaign, now, rule) ensures id in UnexpiredIds(s, campaign, now, rule) {
      var i :| 0 <= i < |events| && events[i].stage == Click && events[i].campaign == campaign &&
               !Expired(events[i], now, rule) && events[i].id == id;
      assert events[i] in s;
    }
    forall id | id in UnexpiredIds(s, campaign, now, rule) ensures id in FreshClickIds(events, campaign, now, rule) {
      var k :| 0 <= k < |s| && s[k].campaign == campaign && !Expired(s[k], now, rule) && s[k].id == id;
      assert s[k] in events;
    }
  }

  lemma StayingIds(kept: seq<Event>, s: seq<Event>, campaign: Option<CampaignId>, now: int, rule: Retention)
    requires forall k :: 0 <= k < |s| ==> (s[k] in kept <==> !Goes(s[..k], s[k], now, rule))
    requires forall k :: 0 <= k < |s| ==> s[k].stage == Click
    requires forall e :: e in kept && e.stage == Click ==> e in s
    ensures ClickIds(kept, campaign) == KeptIds(s, campaign, now, rule)
  {
    forall id | id in ClickIds(kept, campaign) ensures id in KeptIds(s, campaign, now, rule) {
      var i :| 0 <= i < |kept| && kept[i].stage == Click && kept[i].campaign == campaign && kept[i].id == id;
      assert kept[i] in s;
    }
    forall id | id in KeptIds(s, campaign, now, rule) ensures id in ClickIds(kept, campaign) {
      var k :| 0 <= k < |s| && s[k].campaign == campaign && !Goes(s[..k], s[k], now, rule) && s[k].id == id;
      assert s[k] in kept;
    }
  }

  lemma FreshClickKey(log: Log, campaign: CampaignId)
    requires Inv(log)
    ensures !HasKey(log.events, ClickKey(campaign, log.nextId))
  {
    forall i | 0 <= i < |log.events| ensures log.events[i].key != ClickKey(campaign, log.nextId) {
      assert KeyFits(log.events[i]);
    }
  }

  lemma ClickKeeps(log: Log, campaign: CampaignId, now: int, rule: Retention)
    requires Inv(log)
    ensures Inv(RecordClick(log, campaign, now, rule))
  {
    FreshClickKey(log, campaign);
    var e := Event(log.nextId, Click, Some(campaign), None, now, now, ClickKey(campaign, log.nextId));
    IngestKeeps(log, e);
    PruneKeeps(Ingest(log, e), now, rule);
  }

  lemma MembershipKeeps(log: Log, identity: Identity, member: bool, credited: Option<CampaignId>, transition: bool, now: int)
    requires Inv(log)
    ensures Inv(RecordMembership(log, identity, member, credited, transition, now))
  {
    var seen := log.(memberships := log.memberships[identity := member]);
    forall i ensures AttributionOk(seen, i) {
      assert AttributionOk(log, i);
    }
    var key := JoinKey(identity, credited, now);
    if transition && !HasKey(log.events, key) {
      IngestKeeps(seen, Event(log.nextId, ChannelJoin, credited, Some(identity), now, now, key));
    }
  }

  lemma CommittedKeeps(log: Log, a: Action)
    requires Inv(log) && Enabled(log, a)
    ensures Inv(Committed(log, a)) && (a.Restart? || Committed(log, a).nextId >= log.nextId)
  {
    match a
    case Started(campaign, identity, at, now, _) =>
      var key := StartKey(campaign, identity);
      if !HasKey(log.events, key) {
        IngestKeeps(log, Event(log.nextId, Start, Some(campaign), Some(identity), at, now, key));
      }
    case AlertSet(alert, identity, credited, at, now, _) =>
      var key := AlertKey(alert);
      if !HasKey(log.events, key) {
        IngestKeeps(log, Event(log.nextId, AlertCreated, Some(credited), Some(identity), at, now, key));
      }
    case Observed(identity, member, joined, transition, now, _) =>
      MembershipKeeps(log, identity, member, joined, transition, now);
    case Clicked(campaign, now, rule, _) => ClickKeeps(log, campaign, now, rule);
    case Restart(_) =>
      forall identity ensures AttributionOk(Committed(log, a), identity) {
        assert AttributionOk(log, identity);
      }
  }

  lemma StepKeeps(log: Log, a: Action)
    requires Inv(log) && Enabled(log, a)
    ensures Inv(Step(log, a))
  {
    CommittedKeeps(log, a);
    if !a.Restart? && !a.ok {
      forall identity ensures AttributionOk(Step(log, a), identity) {
        assert AttributionOk(log, identity);
      }
    }
  }

  lemma {:induction false} RunKeeps(log: Log, actions: seq<Action>)
    requires Inv(log) && Valid(log, actions)
    ensures Inv(Run(log, actions))
    decreases |actions|
  {
    if actions != [] {
      StepKeeps(log, actions[0]);
      RunKeeps(Step(log, actions[0]), actions[1..]);
    }
  }

  // --- idempotent for ever -----------------------------------------------------------------------------------------------

  /**
   * After any sequence of starts, alerts, joins, clicks, prunes, failed writes and restarts there is at most one START
   * per campaign and identity and at most one ALERT_CREATED per alert.
   */
  lemma IngestedAtMostOnce(actions: seq<Action>, i: nat, k: nat)
    requires Valid(Empty(), actions)
    requires var events := Run(Empty(), actions).events;
             i < |events| && k < |events| && events[i].stage == events[k].stage
    requires var events := Run(Empty(), actions).events;
             || (events[i].stage == Start && events[i].campaign == events[k].campaign && events[i].identity == events[k].identity)
             || (events[i].stage == AlertCreated && events[i].key == events[k].key)
    ensures i == k
  {
    RunKeeps(Empty(), actions);
    var events := Run(Empty(), actions).events;
    assert KeyFits(events[i]) && KeyFits(events[k]);
    assert events[i].key == events[k].key;
  }

  // --- the record against the log --------------------------------------------------------------------------------------------

  lemma {:induction false} LatestIsMaximal(touches: seq<Touch>)
    requires touches != []
    ensures Latest(touches) in touches && forall t :: t in touches ==> t.at <= Latest(touches).at
    decreases |touches|
  {
    if |touches| > 1 {
      var n := |touches| - 1;
      LatestIsMaximal(touches[..n]);
      assert touches == touches[..n] + [touches[n]];
    }
  }

  /**
   * In every reachable log an identity has a record exactly when it has touches, `lastAt` is the latest touch time,
   * and the record's campaign is the recomputed LAST_TOUCH choice whenever that latest touch is unique and eligible.
   */
  lemma RecordAgreesWithLog(actions: seq<Action>, identity: Identity, q: Query)
    requires Valid(Empty(), actions)
    ensures var log := Run(Empty(), actions);
            var touches := TouchesOf(log.events, identity);
            && (identity in log.attributions <==> touches != [])
            && (identity in log.attributions ==>
                  var record := log.attributions[identity];
                  && (exists t :: t in touches && t.at == record.lastAt && t.campaign == record.lastCampaign)
                  && (forall t :: t in touches ==> t.at <= record.lastAt)
                  && ((forall x, y | x in touches && y in touches :: x.at == record.lastAt && y.at == record.lastAt ==> x == y) &&
                      0 <= q.at - record.lastAt <= q.window ==>
                        DecideAttribution(LastTouch, touches, q).campaign == Some(record.lastCampaign)))
  {
    RunKeeps(Empty(), actions);
    var log := Run(Empty(), actions);
    assert AttributionOk(log, identity);
    var touches := TouchesOf(log.events, identity);
    if touches != [] {
      LatestIsMaximal(touches);
      var latest := Latest(touches);
      DecidesByExtreme(LastTouch, touches, q);
      if 0 <= q.at - latest.at <= q.window {
        assert IsEligible(latest, q);
        var chosen := DecideAttribution(LastTouch, touches, q).touch.value;
        assert NotAfter(latest, chosen) && chosen.at == latest.at;
      }
    }
  }

  /** The first ingested of the touches of the latest time. */
  ghost predicate FirstOfLatest(touches: seq<Touch>, i: int) {
    && 0 <= i < |touches| && (forall k :: 0 <= k < |touches| ==> touches[k].at <= touches[i].at)
    && forall k :: 0 <= k < i ==> touches[k].at < touches[i].at
  }

  /** Of the touches of the latest time the one with the latest ingestion time and, at one such time, the last id text. */
  ghost predicate LastOfLatest(touches: seq<Touch>, x: Touch) {
    x in touches && forall y :: y in touches ==> NotAfter(y, x)
  }

  lemma {:induction false} LatestIsFirst(touches: seq<Touch>, i: nat)
    requires FirstOfLatest(touches, i)
    ensures Latest(touches) == touches[i]
    decreases |touches|
  {
    var n := |touches| - 1;
    if i < n {
      assert FirstOfLatest(touches[..n], i);
      LatestIsFirst(touches[..n], i);
    } else if n > 0 {
      LatestIsMaximal(touches[..n]);
      assert Latest(touches[..n]) in touches[..n];
    }
  }

  lemma {:induction false} TouchSource(events: seq<Event>, identity: Identity, x: Touch) returns (i: nat)
    requires x in TouchesOf(events, identity)
    ensures i < |events| && IsTouch(events[i], identity) && ToTouch(events[i]) == x
    ensures events[i].campaign == Some(x.campaign) && events[i].at == x.at && events[i].recordedAt == x.recordedAt
    ensures events[i].id == x.eventId
    decreases |events|
  {
    i := |events| - 1;
    if !(IsTouch(events[i], identity) && ToTouch(events[i]) == x) {
      i := TouchSource(events[..i], identity, x);
    }
  }

  /** Touches that come neither before nor after each other are one touch. */
  lemma SameTouch(events: seq<Event>, nextId: EventId, identity: Identity, x: Touch, y: Touch)
    requires EventsOk(events, nextId) && x in TouchesOf(events, identity) && y in TouchesOf(events, identity)
    requires NotAfter(x, y) && NotAfter(y, x)
    ensures x == y
  {
    SameEventId(x, y);
    var i := TouchSource(events, identity, x);
    var k := TouchSource(events, identity, y);
  }

  /**
   * In every reachable log, at a time when the last touch of the record is eligible, the record and the recomputed
   * LAST_TOUCH agree if and only if, of the touches of that time, the first ingested and the last in the order of
   * the sort are of one campaign.
   */
  lemma LastTouchAgreesExactly(actions: seq<Action>, identity: Identity, q: Query, i: int, x: Touch)
    requires Valid(Empty(), actions)
    requires var touches := TouchesOf(Run(Empty(), actions).events, identity);
             FirstOfLatest(touches, i) && LastOfLatest(touches, x) && IsEligible(x, q)
    ensures var log := Run(Empty(), actions);
            var touches := TouchesOf(log.events, identity);
            && identity in log.attributions
            && (DecideAttribution(LastTouch, touches, q).campaign == Some(log.attributions[identity].lastCampaign) <==>
                touches[i].campaign == x.campaign)
  {
    RunKeeps(Empty(), actions);
    var log := Run(Empty(), actions);
    var touches := TouchesOf(log.events, identity);
    assert AttributionOk(log, identity);
    LatestIsFirst(touches, i);
    DecidesByExtreme(LastTouch, touches, q);
    var chosen := DecideAttribution(LastTouch, touches, q).touch.value;
    SameTouch(log.events, log.nextId, identity, x, chosen);
  }

  function Tied(identity: Identity, at: int): seq<Action> {
    [Started(1, identity, at, at, true), Started(2, identity, at, at, true)]
  }

  lemma TiedLog(identity: Identity, at: int)
    ensures var log := Run(Empty(), Tied(identity, at));
            && Valid(Empty(), Tied(identity, at))
            && identity in log.attributions && log.attributions[identity].lastCampaign == 1
            && TouchesOf(log.events, identity) == [Touch(1, at, at, 0), Touch(2, at, at, 1)]
  {
    var a, b := Tied(identity, at)[0], Tied(identity, at)[1];
    var e := Event(0, Start, Some(1), Some(identity), at, at, StartKey(1, identity));
    var f := Event(1, Start, Some(2), Some(identity), at, at, StartKey(2, identity));
    var first := Step(Empty(), a);
    assert first.events == [] + [e] == [e];
    var log := Step(first, b);
    assert log.events == [e] + [f];
    assert Tied(identity, at)[1..] == [b] && [b][1..] == [];
    assert Run(Empty(), Tied(identity, at)) == Run(first, [b]) == Run(log, []) == log;
    TouchesAppend([], e, identity);
    TouchesAppend([e], f, identity);
  }

  lemma TiedDecision(touches: seq<Touch>, at: int)
    requires touches == [Touch(1, at, at, 0), Touch(2, at, at, 1)]
    ensures DecideAttribution(LastTouch, touches, Query(at, 0)).campaign == Some(2)
  {
    var x := touches[1];
    DecidesByExtreme(LastTouch, touches, Query(at, 0));
    assert x in touches && IsEligible(x, Query(at, 0));
    assert DecideAttribution(LastTouch, touches, Query(at, 0)).touch == Some(x);
  }

  /** Two starts of one user at one time: the record names the first campaign, the recomputed LAST_TOUCH the second. */
  lemma TiedTouchesDisagree(identity: Identity, at: int)
    ensures var log := Run(Empty(), Tied(identity, at));
            && Valid(Empty(), Tied(identity, at))
            && identity in log.attributions && log.attributions[identity].lastCampaign == 1
            && DecideAttribution(LastTouch, TouchesOf(log.events, identity), Query(at, 0)).campaign == Some(2)
  {
    TiedLog(identity, at);
    TiedDecision(TouchesOf(Run(Empty(), Tied(identity, at)).events, identity), at);
  }

  /** A first touch, once written, is never rewritten, not even by a touch of an earlier time that arrives late. */
  lemma {:induction false} FirstTouchNeverChanges(log: Log, actions: seq<Action>, identity: Identity)
    requires Inv(log) && Valid(log, actions) && identity in log.attributions
    ensures identity in Run(log, actions).attributions
    ensures var x, y := log.attributions[identity], Run(log, actions).attributions[identity];
            x.firstCampaign == y.firstCampaign && x.firstAt == y.firstAt && x.firstEvidence == y.firstEvidence
    decreases |actions|
  {
    if actions != [] {
      StepKeeps(log, actions[0]);
      FirstTouchNeverChanges(Step(log, actions[0]), actions[1..], identity);
    }
  }
}
