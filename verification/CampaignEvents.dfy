/**
 * The campaign event log: which events are touches, the incrementally kept attribution record, the ingestion
 * transactions, and retention of raw clicks.
 */
module CampaignEvents {
  import opened Common
  import opened Attribution

  type Identity = string
  type AlertId = nat

  datatype Stage = Click | Start | ChannelJoin | AlertCreated

  /** Idempotency keys, one constructor per text prefix. */
  datatype Key =
    | StartKey(campaign: CampaignId, identity: Identity)
    | AlertKey(alert: AlertId)
    | JoinKey(identity: Identity, credited: Option<CampaignId>, at: int)
    | ClickKey(campaign: CampaignId, eventId: EventId)

  datatype Event = Event(id: EventId, stage: Stage, campaign: Option<CampaignId>, identity: Option<Identity>,
                         at: int, recordedAt: int, key: Key)

  datatype Record = Record(firstCampaign: CampaignId, firstAt: int, firstEvidence: EventId,
                           lastCampaign: CampaignId, lastAt: int, lastEvidence: EventId)

  datatype Log = Log(events: seq<Event>, attributions: map<Identity, Record>, memberships: map<Identity, bool>,
                     nextId: EventId)

  // --- touches -----------------------------------------------------------------------------------------------------

  predicate IsTouch(e: Event, identity: Identity) {
    e.identity == Some(identity) && e.campaign.Some? && e.stage != AlertCreated
  }

  function ToTouch(e: Event): Touch
    requires e.campaign.Some?
  {
    Touch(e.campaign.value, e.at, e.recordedAt, e.id)
  }

  /** The touches of one identity in the order they were ingested. */
  function TouchesOf(events: seq<Event>, identity: Identity): seq<Touch> {
    if events == [] then []
    else
      var last := events[|events| - 1];
      TouchesOf(events[..|events| - 1], identity) + if IsTouch(last, identity) then [ToTouch(last)] else []
  }

  lemma TouchesAppend(events: seq<Event>, e: Event, identity: Identity)
    ensures TouchesOf(events + [e], identity) ==
            TouchesOf(events, identity) + if IsTouch(e, identity) then [ToTouch(e)] else []
  {
    assert (events + [e])[..|events|] == events;
  }

  predicate HasKey(events: seq<Event>, key: Key) {
    exists i :: 0 <= i < |events| && events[i].key == key
  }

  // --- the attribution record --------------------------------------------------------------------------------------

  /** A stored record always carries evidence, so a touch of equal time never replaces the last one. */
  predicate IsMoreRecent(touch: Touch, record: Record) {
    touch.at > record.lastAt
  }

  function ApplyTouch(attributions: map<Identity, Record>, identity: Identity, touch: Touch): map<Identity, Record> {
    if identity !in attributions
    then attributions[identity := Record(touch.campaign, touch.at, touch.eventId, touch.campaign, touch.at, touch.eventId)]
    else if IsMoreRecent(touch, attributions[identity])
    then attributions[identity := attributions[identity].(lastCampaign := touch.campaign, lastAt := touch.at,
                                                          lastEvidence := touch.eventId)]
    else attributions
  }

  // --- retention of raw clicks -------------------------------------------------------------------------------------

  /** Zero switches a rule off. */
  datatype Retention = Retention(age: nat, perCampaign: nat)

  predicate Expired(e: Event, now: int, rule: Retention) {
    rule.age > 0 && now - e.recordedAt > rule.age
  }

  function ClicksOf(events: seq<Event>): seq<Event> {
    if events == [] then []
    else if events[0].stage == Click then [events[0]] + ClicksOf(events[1..]) else ClicksOf(events[1..])
  }

  /** Newest first; clicks of one time keep their order. */
  function InsertClick(x: Event, s: seq<Event>): seq<Event> {
    if s == [] then [x] else if x.recordedAt >= s[0].recordedAt then [x] + s else [s[0]] + InsertClick(x, s[1..])
  }

  function NewestFirst(s: seq<Event>): seq<Event> {
    if s == [] then [] else InsertClick(s[0], NewestFirst(s[1..]))
  }

  function Unexpired(s: seq<Event>, campaign: Option<CampaignId>, now: int, rule: Retention): nat {
    if s == [] then 0
    else
      var last := s[|s| - 1];
      Unexpired(s[..|s| - 1], campaign, now, rule) +
      if last.campaign == campaign && !Expired(last, now, rule) then 1 else 0
  }

  /** Expired, or behind a full quota of unexpired clicks of its campaign. */
  predicate Goes(before: seq<Event>, e: Event, now: int, rule: Retention) {
    Expired(e, now, rule) || (rule.perCampaign > 0 && Unexpired(before, e.campaign, now, rule) >= rule.perCampaign)
  }

  function Excess(s: seq<Event>, now: int, rule: Retention): set<EventId> {
    if s == [] then {}
    else
      Excess(s[..|s| - 1], now, rule) +
      if Goes(s[..|s| - 1], s[|s| - 1], now, rule) then {s[|s| - 1].id} else {}
  }

  function Without(events: seq<Event>, ids: set<EventId>): seq<Event> {
    if events == [] then []
    else
      var last := events[|events| - 1];
      Without(events[..|events| - 1], ids) + if last.id in ids then [] else [last]
  }

  function Pruned(events: seq<Event>, now: int, rule: Retention): seq<Event> {
    if rule.age == 0 && rule.perCampaign == 0 then events
    else Without(events, Excess(NewestFirst(ClicksOf(events)), now, rule))
  }

  // --- ingestion -----------------------------------------------------------------------------------------------------

  function Ingest(log: Log, e: Event): Log
    requires e.id == log.nextId
  {
    log.(events := log.events + [e], nextId := log.nextId + 1,
         attributions := if e.identity.Some? && IsTouch(e, e.identity.value)
                         then ApplyTouch(log.attributions, e.identity.value, ToTouch(e)) else log.attributions)
  }

  function RecordStart(log: Log, campaign: CampaignId, identity: Identity, at: int, now: int): Log {
    var key := StartKey(campaign, identity);
    if HasKey(log.events, key) then log
    else Ingest(log, Event(log.nextId, Start, Some(campaign), Some(identity), at, now, key))
  }

  function RecordAlertCreated(log: Log, alert: AlertId, identity: Identity, credited: CampaignId, at: int, now: int): Log {
    var key := AlertKey(alert);
    if HasKey(log.events, key) then log
    else Ingest(log, Event(log.nextId, AlertCreated, Some(credited), Some(identity), at, now, key))
  }

  function RecordMembership(log: Log, identity: Identity, member: bool, credited: Option<CampaignId>,
                            transition: bool, now: int): Log {
    var seen := log.(memberships := log.memberships[identity := member]);
    var key := JoinKey(identity, credited, now);
    if !transition || HasKey(log.events, key) then seen
    else Ingest(seen, Event(log.nextId, ChannelJoin, credited, Some(identity), now, now, key))
  }

  function RecordClick(log: Log, campaign: CampaignId, now: int, rule: Retention): Log {
    var clicked := Ingest(log, Event(log.nextId, Click, Some(campaign), None, now, now, ClickKey(campaign, log.nextId)));
    clicked.(events := Pruned(clicked.events, now, rule))
  }
}
