/** The campaign document as data, and its indexes as functions of it: what rebuilding makes of the rows. */
module CampaignIndexes {
  import opened Common
  import opened Attribution
  import opened CampaignEvents
  import Conversions

  type Token = string

  /** Ids carry a prefix per collection; only the number after it is kept here. */
  datatype Prefix = Cmp | Evt | Cnv | Imp | Aud

  datatype Campaign = Campaign(id: CampaignId, token: Token, name: string)

  /** Maps that are iterated are sequences in insertion order. */
  datatype Data = Data(campaigns: seq<Campaign>, attributions: map<Identity, Record>, events: seq<Event>,
                       conversions: map<nat, Conversions.Conversion>, imports: seq<Conversions.Import>, audit: seq<nat>)

  datatype Document = Document(data: Data, sequences: map<Prefix, nat>)

  function NumberOf(sequences: map<Prefix, nat>, p: Prefix): nat {
    if p in sequences then sequences[p] else 0
  }

  /** Whether `id` is in use in the collection of prefix `p`. */
  ghost predicate Stored(d: Data, p: Prefix, id: nat) {
    match p
    case Cmp => exists i :: 0 <= i < |d.campaigns| && d.campaigns[i].id == id
    case Evt => exists i :: 0 <= i < |d.events| && d.events[i].id == id
    case Cnv => id in d.conversions
    case Imp => exists i :: 0 <= i < |d.imports| && d.imports[i].id == id
    case Aud => id in d.audit
  }

  /** Every stored id has been handed out. */
  ghost predicate Covers(sequences: map<Prefix, nat>, d: Data) {
    forall p, id: nat :: Stored(d, p, id) ==> id <= NumberOf(sequences, p)
  }

  ghost predicate RowsUnique(d: Data) {
    && (forall i, k :: 0 <= i < k < |d.campaigns| ==>
          d.campaigns[i].id != d.campaigns[k].id && d.campaigns[i].token != d.campaigns[k].token)
    && EventsUnique(d.events)
    && forall i, k :: 0 <= i < k < |d.imports| ==> d.imports[i].id != d.imports[k].id
  }

  // --- rebuilt indexes -----------------------------------------------------------------------------------------------

  function TokenIndex(campaigns: seq<Campaign>): map<Token, CampaignId> {
    if campaigns == [] then map[]
    else
      var last := campaigns[|campaigns| - 1];
      TokenIndex(campaigns[..|campaigns| - 1])[last.token := last.id]
  }

  function EventKeys(events: seq<Event>): map<Key, EventId> {
    if events == [] then map[]
    else
      var last := events[|events| - 1];
      EventKeys(events[..|events| - 1])[last.key := last.id]
  }

  /** Ids of the touch-stage events of an identity, with or without a campaign. */
  predicate IsTouchStage(e: Event) {
    e.identity.Some? && e.stage != AlertCreated
  }

  function TouchIds(events: seq<Event>, identity: Identity): seq<EventId> {
    if events == [] then []
    else
      var last := events[|events| - 1];
      TouchIds(events[..|events| - 1], identity) +
      if IsTouchStage(last) && last.identity == Some(identity) then [last.id] else []
  }

  function Lookup(index: map<Identity, seq<EventId>>, identity: Identity): seq<EventId> {
    if identity in index then index[identity] else []
  }

  function TouchIndex(events: seq<Event>): map<Identity, seq<EventId>> {
    if events == [] then map[]
    else
      var before := TouchIndex(events[..|events| - 1]);
      var last := events[|events| - 1];
      if IsTouchStage(last)
      then before[last.identity.value := Lookup(before, last.identity.value) + [last.id]]
      else before
  }

  lemma {:induction false} TouchIndexAt(events: seq<Event>, identity: Identity)
    ensures Lookup(TouchIndex(events), identity) == TouchIds(events, identity)
    decreases |events|
  {
    if events != [] {
      TouchIndexAt(events[..|events| - 1], identity);
    }
  }

  // --- indexed touches against the scan --------------------------------------------------------------------------------

  /** The first event with an id. */
  function FindEvent(events: seq<Event>, id: EventId): Option<Event> {
    if events == [] then None else if events[0].id == id then Some(events[0]) else FindEvent(events[1..], id)
  }

  lemma {:induction false} FindEventAt(events: seq<Event>, i: nat)
    requires i < |events| && forall a, b :: 0 <= a < b < |events| ==> events[a].id != events[b].id
    ensures FindEvent(events, events[i].id) == Some(events[i])
    decreases |events|
  {
    if i > 0 {
      FindEventAt(events[1..], i - 1);
    }
  }

  /** One touch per id whose event still exists and has a campaign. */
  function Resolve(events: seq<Event>, ids: seq<EventId>): seq<Touch> {
    if ids == [] then []
    else
      var found := FindEvent(events, ids[|ids| - 1]);
      Resolve(events, ids[..|ids| - 1]) +
      if found.Some? && found.value.identity.Some? && found.value.campaign.Some? then [ToTouch(found.value)] else []
  }

  lemma ResolveAppend(events: seq<Event>, ids: seq<EventId>, id: EventId)
    ensures var found := FindEvent(events, id);
            Resolve(events, ids + [id]) ==
            Resolve(events, ids) +
            if found.Some? && found.value.identity.Some? && found.value.campaign.Some? then [ToTouch(found.value)] else []
  {
    assert (ids + [id])[..|ids|] == ids;
  }

  /** With unique event ids, the lookup through the identity index lists exactly what a full scan lists, in order. */
  lemma {:induction false} IndexedTouchesAreScanned(events: seq<Event>, n: nat, identity: Identity)
    requires n <= |events| && forall a, b :: 0 <= a < b < |events| ==> events[a].id != events[b].id
    ensures Resolve(events, TouchIds(events[..n], identity)) == TouchesOf(events[..n], identity)
    decreases n
  {
    if n > 0 {
      IndexedTouchesAreScanned(events, n - 1, identity);
      assert events[..n][..n - 1] == events[..n - 1];
      var e := events[n - 1];
      var ids, touches := TouchIds(events[..n - 1], identity), TouchesOf(events[..n - 1], identity);
      assert ids + [] == ids && touches + [] == touches && Resolve(events, ids) == touches;
      assert events[..n][n - 1] == e;
      if IsTouchStage(e) && e.identity == Some(identity) {
        FindEventAt(events, n - 1);
        ResolveAppend(events, ids, e.id);
      }
    }
  }

  // --- incremental updates against rebuilding ----------------------------------------------------------------------------

  lemma {:induction false} EventKeysHas(events: seq<Event>, key: Key)
    ensures key in EventKeys(events) <==> HasKey(events, key)
    decreases |events|
  {
    if events != [] {
      var n := |events| - 1;
      EventKeysHas(events[..n], key);
      if HasKey(events[..n], key) {
        var i :| 0 <= i < n && events[..n][i].key == key;
        assert events[i].key == key;
      }
      if HasKey(events, key) && events[n].key != key {
        var i :| 0 <= i < |events| && events[i].key == key;
        assert events[..n][i].key == key;
      }
    }
  }

  ghost predicate EventsUnique(events: seq<Event>) {
    forall i, k :: 0 <= i < k < |events| ==> events[i].id != events[k].id && events[i].key != events[k].key
  }

  lemma EventKeysAppend(events: seq<Event>, e: Event)
    ensures EventKeys(events + [e]) == EventKeys(events)[e.key := e.id]
  {
    assert (events + [e])[..|events|] == events;
  }

  /** Deleting one key is what rebuilding without the event gives. */
  lemma {:induction false} RemovedKey(events: seq<Event>, i: nat)
    requires i < |events| && EventsUnique(events)
    ensures EventKeys(Without(events, {events[i].id})) == EventKeys(events) - {events[i].key}
    decreases |events|
  {
    var n := |events| - 1;
    if i < n {
      RemovedKey(events[..n], i);
      RemovedKeyStep(EventKeys(events[..n]), events[i], events[n], Without(events[..n], {events[i].id}));
      assert Without(events, {events[i].id}) == Without(events[..n], {events[i].id}) + [events[n]];
    } else {
      RemovedLastKey(events);
    }
  }

  lemma RemovedLastKey(events: seq<Event>)
    requires events != [] && EventsUnique(events)
    ensures var last := events[|events| - 1];
            EventKeys(Without(events, {last.id})) == EventKeys(events) - {last.key}
  {
    var n := |events| - 1;
    NothingRemoved(events[..n], events[n].id);
    assert Without(events, {events[n].id}) == events[..n] + [] == events[..n];
    NoKey(events);
  }

  lemma RemovedKeyStep(keys: map<Key, EventId>, gone: Event, last: Event, rest: seq<Event>)
    requires gone.key != last.key && EventKeys(rest) == keys - {gone.key}
    ensures EventKeys(rest + [last]) == keys[last.key := last.id] - {gone.key}
  {
    EventKeysAppend(rest, last);
  }

  lemma NoKey(events: seq<Event>)
    requires events != [] && EventsUnique(events)
    ensures events[|events| - 1].key !in EventKeys(events[..|events| - 1])
  {
    var n := |events| - 1;
    EventKeysHas(events[..n], events[n].key);
  }

  lemma {:induction false} NothingRemoved(events: seq<Event>, id: EventId)
    requires forall a :: 0 <= a < |events| ==> events[a].id != id
    ensures Without(events, {id}) == events
    decreases |events|
  {
    if events != [] {
      NothingRemoved(events[..|events| - 1], id);
      assert events == events[..|events| - 1] + [events[|events| - 1]];
    }
  }

  /** A campaign of a known id is replaced in place, a new one goes to the end. */
  function SaveRow(campaigns: seq<Campaign>, c: Campaign): seq<Campaign> {
    if campaigns == [] then [c]
    else if campaigns[0].id == c.id then [c] + campaigns[1..]
    else [campaigns[0]] + SaveRow(campaigns[1..], c)
  }

  lemma {:induction false} SaveRowInPlace(campaigns: seq<Campaign>, i: nat, c: Campaign)
    requires i < |campaigns| && campaigns[i].id == c.id
    requires forall a, b :: 0 <= a < b < |campaigns| ==> campaigns[a].id != campaigns[b].id
    ensures SaveRow(campaigns, c) == campaigns[i := c]
    decreases |campaigns|
  {
    if i > 0 {
      SaveRowInPlace(campaigns[1..], i - 1, c);
      assert campaigns[i := c] == [campaigns[0]] + campaigns[1..][i - 1 := c];
    } else {
      assert campaigns[0 := c] == [c] + campaigns[1..];
    }
  }

  lemma {:induction false} SaveRowAtEnd(campaigns: seq<Campaign>, c: Campaign)
    requires forall i :: 0 <= i < |campaigns| ==> campaigns[i].id != c.id
    ensures SaveRow(campaigns, c) == campaigns + [c]
    decreases |campaigns|
  {
    if campaigns != [] {
      SaveRowAtEnd(campaigns[1..], c);
      assert campaigns + [c] == [campaigns[0]] + (campaigns[1..] + [c]);
    }
  }

  lemma {:induction false} TokenOf(campaigns: seq<Campaign>, i: nat)
    requires i < |campaigns| && forall a, b :: 0 <= a < b < |campaigns| ==> campaigns[a].token != campaigns[b].token
    ensures campaigns[i].token in TokenIndex(campaigns) && TokenIndex(campaigns)[campaigns[i].token] == campaigns[i].id
    decreases |campaigns|
  {
    if i < |campaigns| - 1 {
      TokenOf(campaigns[..|campaigns| - 1], i);
    }
  }

  ghost predicate TokenUsed(campaigns: seq<Campaign>, token: Token) {
    exists i :: 0 <= i < |campaigns| && campaigns[i].token == token
  }

  lemma {:induction false} TokenIndexHas(campaigns: seq<Campaign>, token: Token)
    ensures token in TokenIndex(campaigns) <==> TokenUsed(campaigns, token)
    decreases |campaigns|
  {
    if campaigns != [] {
      var n := |campaigns| - 1;
      TokenIndexHas(campaigns[..n], token);
      if TokenUsed(campaigns[..n], token) {
        var i :| 0 <= i < n && campaigns[..n][i].token == token;
        assert campaigns[i].token == token;
      }
      if TokenUsed(campaigns, token) && campaigns[n].token != token {
        var i :| 0 <= i < |campaigns| && campaigns[i].token == token;
        assert campaigns[..n][i].token == token;
      }
    }
  }

  /** Replacing a row by one of the same id and token, or key, leaves the index as it is. */
  lemma {:induction false} SameTokens(campaigns: seq<Campaign>, i: nat, c: Campaign)
    requires i < |campaigns| && campaigns[i].id == c.id && campaigns[i].token == c.token
    ensures TokenIndex(campaigns[i := c]) == TokenIndex(campaigns)
    decreases |campaigns|
  {
    var n := |campaigns| - 1;
    if i < n {
      SameTokens(campaigns[..n], i, c);
      assert campaigns[i := c][..n] == campaigns[..n][i := c];
    } else {
      assert campaigns[n := c][..n] == campaigns[..n];
    }
  }

  lemma {:induction false} SameKeys(imports: seq<Conversions.Import>, i: nat, x: Conversions.Import)
    requires i < |imports| && imports[i].id == x.id && imports[i].key == x.key
    ensures Conversions.ImportKeys(imports[i := x]) == Conversions.ImportKeys(imports)
    decreases |imports|
  {
    var n := |imports| - 1;
    if i < n {
      SameKeys(imports[..n], i, x);
      assert imports[i := x][..n] == imports[..n][i := x];
    } else {
      assert imports[n := x][..n] == imports[..n];
    }
  }
}
