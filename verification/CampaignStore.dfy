/** The campaign store: drafts over copies, sequences shared with every draft, commit, reload. */
module CampaignStore {
  import opened Common
  import opened Attribution
  import opened CampaignEvents
  import opened CampaignIndexes
  import Conversions

  /** How many random tokens are tried before a collision is an error. */
  const TOKEN_ATTEMPTS := 5

  /** The id sequences: one object, shared by the store and all its drafts. */
  class Sequences {
    var next: map<Prefix, nat>

    constructor (next: map<Prefix, nat>)
      ensures this.next == next
    {
      this.next := next;
    }

    method Take(p: Prefix) returns (id: nat)
      modifies this
      ensures id == old(NumberOf(next, p)) + 1
      ensures next == old(next)[p := id]
    {
      id := NumberOf(next, p) + 1;
      next := next[p := id];
    }
  }

  ghost predicate AtLeast(a: map<Prefix, nat>, b: map<Prefix, nat>) {
    forall p :: NumberOf(b, p) <= NumberOf(a, p)
  }

  lemma CoversMore(a: map<Prefix, nat>, b: map<Prefix, nat>, d: Data)
    requires Covers(b, d) && AtLeast(a, b)
    ensures Covers(a, d)
  {
    forall p, id: nat | Stored(d, p, id) ensures id <= NumberOf(a, p) {
      assert id <= NumberOf(b, p);
    }
  }

  method PositionOf(events: seq<Event>, id: EventId) returns (found: Option<nat>)
    ensures found.None? ==> forall k :: 0 <= k < |events| ==> events[k].id != id
    ensures found.Some? ==> found.value < |events| && events[found.value].id == id
  {
    for n := 0 to |events|
      invariant forall k :: 0 <= k < n ==> events[k].id != id
    {
      if events[n].id == id { return Some(n); }
    }
    return None;
  }

  // --- the draft -----------------------------------------------------------------------------------------------------

  class CampaignDraft {
    const sequences: Sequences
    var data: Data
    var tokenIndex: map<Token, CampaignId>
    var eventKeys: map<Key, EventId>
    var importKeys: map<Conversions.DedupKey, Conversions.ImportId>
    var changed: bool

    /** The incremental indexes are those that rebuilding would give. */
    ghost predicate Valid()
      reads this, sequences
    {
      && RowsUnique(data) && Covers(sequences.next, data)
      && tokenIndex == TokenIndex(data.campaigns) && eventKeys == EventKeys(data.events)
      && importKeys == Conversions.ImportKeys(data.imports)
    }

    constructor (sequences: Sequences, data: Data, tokenIndex: map<Token, CampaignId>, eventKeys: map<Key, EventId>,
                 importKeys: map<Conversions.DedupKey, Conversions.ImportId>)
      requires RowsUnique(data) && Covers(sequences.next, data)
      requires tokenIndex == TokenIndex(data.campaigns) && eventKeys == EventKeys(data.events)
      requires importKeys == Conversions.ImportKeys(data.imports)
      ensures Valid() && this.sequences == sequences && this.data == data && !changed
    {
      this.sequences, this.data, this.changed := sequences, data, false;
      this.tokenIndex, this.eventKeys, this.importKeys := tokenIndex, eventKeys, importKeys;
    }

    /** A handed-out id is never one that is stored, whatever failed before. */
    method NextId(p: Prefix) returns (id: nat)
      requires Valid()
      modifies sequences
      ensures Valid() && !Stored(data, p, id) && id == NumberOf(sequences.next, p)
      ensures AtLeast(sequences.next, old(sequences.next))
    {
      id := sequences.Take(p);
      CoversMore(sequences.next, old(sequences.next), data);
    }

    method HasEventKey(key: Key) returns (found: bool)
      requires Valid()
      ensures found == HasKey(data.events, key)
    {
      EventKeysHas(data.events, key);
      return key in eventKeys;
    }

    method SaveEvent(e: Event)
      requires Valid() && !Stored(data, Evt, e.id) && e.id <= NumberOf(sequences.next, Evt) && !HasKey(data.events, e.key)
      modifies this`data, this`eventKeys, this`changed
      ensures Valid() && data == old(data).(events := old(data).events + [e]) && changed
    {
      SavedEvent(sequences.next, data, e);
      data := data.(events := data.events + [e]);
      eventKeys := eventKeys[e.key := e.id];
      changed := true;
    }

    method RemoveEvent(id: EventId)
      requires Valid()
      modifies this`data, this`eventKeys, this`changed
      ensures Valid() && data == old(data).(events := Without(old(data).events, {id}))
    {
      var found := PositionOf(data.events, id);
      if found.None? {
        NothingRemoved(data.events, id);
        return;
      }
      RemovedEvent(sequences.next, data, found.value);
      eventKeys := eventKeys - {data.events[found.value].key};
      data := data.(events := Without(data.events, {id}));
      changed := true;
    }

    /** Only the row the index points at, or a new one, is ever saved. */
    method SaveImport(x: Conversions.Import)
      requires Valid() && x.id <= NumberOf(sequences.next, Imp)
      requires Stored(data, Imp, x.id) ==> x.key in importKeys && importKeys[x.key] == x.id
      modifies this`data, this`importKeys, this`changed
      ensures Valid() && changed && data == old(data).(imports := Conversions.SaveImport(old(data).imports, x))
    {
      SavedImport(sequences.next, data, x);
      data := data.(imports := Conversions.SaveImport(data.imports, x));
      importKeys := importKeys[x.key := x.id];
      changed := true;
    }

    /** Tokens are unique and never change. */
    method SaveCampaign(c: Campaign)
      requires Valid() && c.id <= NumberOf(sequences.next, Cmp)
      requires forall i :: 0 <= i < |data.campaigns| ==> (data.campaigns[i].id == c.id <==> data.campaigns[i].token == c.token)
      modifies this`data, this`tokenIndex, this`changed
      ensures Valid() && changed && data == old(data).(campaigns := SaveRow(old(data).campaigns, c))
    {
      SavedCampaign(sequences.next, data, c);
      data := data.(campaigns := SaveRow(data.campaigns, c));
      tokenIndex := tokenIndex[c.token := c.id];
      changed := true;
    }

    method HasToken(token: Token) returns (found: bool)
      requires Valid()
      ensures found == TokenUsed(data.campaigns, token)
    {
      TokenIndexHas(data.campaigns, token);
      return token in tokenIndex;
    }

    /** The first unused token of the few that are tried. */
    method PickToken(tokens: nat -> Token) returns (picked: Option<Token>)
      requires Valid()
      ensures picked.None? <==> forall k :: 0 <= k < TOKEN_ATTEMPTS ==> TokenUsed(data.campaigns, tokens(k))
      ensures picked.Some? ==> !TokenUsed(data.campaigns, picked.value)
    {
      var token, attempt := tokens(0), 1;
      var used := HasToken(token);
      while attempt < TOKEN_ATTEMPTS && used
        invariant 1 <= attempt <= TOKEN_ATTEMPTS && token == tokens(attempt - 1)
        invariant used == TokenUsed(data.campaigns, token)
        invariant forall k :: 0 <= k < attempt - 1 ==> TokenUsed(data.campaigns, tokens(k))
      {
        token := tokens(attempt);
        attempt := attempt + 1;
        used := HasToken(token);
      }
      return if used then None else Some(token);
    }

    /** A campaign row and its audit row, under fresh ids. */
    method AddCampaign(name: string, token: Token) returns (id: CampaignId)
      requires Valid() && !TokenUsed(data.campaigns, token)
      modifies this`data, this`tokenIndex, this`changed, sequences
      ensures Valid() && changed && AtLeast(sequences.next, old(sequences.next))
      ensures !Stored(old(data), Cmp, id)
      ensures data.campaigns == old(data).campaigns + [Campaign(id, token, name)]
    {
      id := NextId(Cmp);
      NewCampaignFits(data, Campaign(id, token, name));
      SaveRowAtEnd(data.campaigns, Campaign(id, token, name));
      SaveCampaign(Campaign(id, token, name));
      label named:
      var audit := NextId(Aud);
      AppendAudit(audit);
      AtLeastAgain(sequences.next, old@named(sequences.next), old(sequences.next));
    }

    method AppendAudit(id: nat)
      requires Valid() && id <= NumberOf(sequences.next, Aud)
      modifies this`data, this`changed
      ensures Valid() && changed && data == old(data).(audit := old(data).audit + [id])
    {
      AuditAppended(sequences.next, data, id);
      data := data.(audit := data.audit + [id]);
      changed := true;
    }

    method SaveConversion(id: nat, row: Conversions.Conversion)
      requires Valid() && id <= NumberOf(sequences.next, Cnv)
      modifies this`data, this`changed
      ensures Valid() && changed && data == old(data).(conversions := old(data).conversions[id := row])
    {
      SavedConversion(sequences.next, data, id, row);
      data := data.(conversions := data.conversions[id := row]);
      changed := true;
    }

    method SaveAttribution(identity: Identity, record: Record)
      requires Valid()
      modifies this`data, this`changed
      ensures Valid() && changed && data == old(data).(attributions := old(data).attributions[identity := record])
    {
      SavedAttribution(sequences.next, data, data.attributions[identity := record]);
      data := data.(attributions := data.attributions[identity := record]);
      changed := true;
    }
  }

  lemma SavedEvent(sequences: map<Prefix, nat>, d: Data, e: Event)
    requires RowsUnique(d) && Covers(sequences, d) && e.id <= NumberOf(sequences, Evt)
    requires !Stored(d, Evt, e.id) && !HasKey(d.events, e.key)
    ensures RowsUnique(d.(events := d.events + [e])) && Covers(sequences, d.(events := d.events + [e]))
    ensures EventKeys(d.events + [e]) == EventKeys(d.events)[e.key := e.id]
  {
    EventKeysAppend(d.events, e);
    CoversEvent(sequences, d, e);
    forall i | 0 <= i < |d.events| ensures d.events[i].id != e.id && d.events[i].key != e.key {
      assert d.events[i].id == e.id ==> Stored(d, Evt, e.id);
      assert d.events[i].key == e.key ==> HasKey(d.events, e.key);
    }
  }

  lemma CoversEvent(sequences: map<Prefix, nat>, d: Data, e: Event)
    requires Covers(sequences, d) && e.id <= NumberOf(sequences, Evt)
    ensures Covers(sequences, d.(events := d.events + [e]))
  {
    var after := d.(events := d.events + [e]);
    forall p, id: nat | Stored(after, p, id) ensures id <= NumberOf(sequences, p) {
      if p == Evt {
        var i :| 0 <= i < |after.events| && after.events[i].id == id;
        assert i < |d.events| ==> d.events[i].id == id && Stored(d, Evt, id);
      } else {
        assert Stored(d, p, id);
      }
    }
  }

  lemma {:induction false} WithoutOne(events: seq<Event>, id: EventId)
    requires EventsUnique(events)
    ensures var rest := Without(events, {id});
            && EventsUnique(rest)
            && forall e :: e in rest ==> e in events
    decreases |events|
  {
    if events != [] {
      var n := |events| - 1;
      WithoutOne(events[..n], id);
      var rest := Without(events[..n], {id});
      forall a | 0 <= a < |rest| ensures rest[a].id != events[n].id && rest[a].key != events[n].key {
        assert rest[a] in events[..n];
        var i :| 0 <= i < n && events[..n][i] == rest[a];
      }
    }
  }

  lemma RemovedEvent(sequences: map<Prefix, nat>, d: Data, i: nat)
    requires RowsUnique(d) && Covers(sequences, d) && i < |d.events|
    ensures var after := d.(events := Without(d.events, {d.events[i].id}));
            && RowsUnique(after) && Covers(sequences, after)
            && EventKeys(after.events) == EventKeys(d.events) - {d.events[i].key}
  {
    RemovedKey(d.events, i);
    RemovedRows(sequences, d, d.events[i].id);
  }

  lemma RemovedRows(sequences: map<Prefix, nat>, d: Data, id: EventId)
    requires RowsUnique(d) && Covers(sequences, d)
    ensures RowsUnique(d.(events := Without(d.events, {id}))) && Covers(sequences, d.(events := Without(d.events, {id})))
  {
    WithoutOne(d.events, id);
    var after := d.(events := Without(d.events, {id}));
    forall p, x: nat | Stored(after, p, x) ensures x <= NumberOf(sequences, p) {
      if p == Evt {
        var i :| 0 <= i < |after.events| && after.events[i].id == x;
        assert after.events[i] in d.events;
        var k :| 0 <= k < |d.events| && d.events[k] == after.events[i];
      }
      assert Stored(d, p, x);
    }
  }

  lemma SavedConversion(sequences: map<Prefix, nat>, d: Data, id: nat, row: Conversions.Conversion)
    requires Covers(sequences, d) && id <= NumberOf(sequences, Cnv)
    ensures Covers(sequences, d.(conversions := d.conversions[id := row]))
  {
    var after := d.(conversions := d.conversions[id := row]);
    forall p, x: nat | Stored(after, p, x) ensures x <= NumberOf(sequences, p) {
      assert Stored(d, p, x) || (p == Cnv && x == id);
    }
  }

  lemma AuditAppended(sequences: map<Prefix, nat>, d: Data, id: nat)
    requires Covers(sequences, d) && id <= NumberOf(sequences, Aud)
    ensures Covers(sequences, d.(audit := d.audit + [id]))
  {
    forall p, x: nat | Stored(d.(audit := d.audit + [id]), p, x) ensures x <= NumberOf(sequences, p) {
      assert Stored(d, p, x) || (p == Aud && x == id);
    }
  }

  lemma SavedAttribution(sequences: map<Prefix, nat>, d: Data, attributions: map<Identity, Record>)
    requires Covers(sequences, d)
    ensures Covers(sequences, d.(attributions := attributions))
  {
    forall p, x: nat | Stored(d.(attributions := attributions), p, x) ensures x <= NumberOf(sequences, p) {
      assert Stored(d, p, x);
    }
  }

  lemma SavedImport(sequences: map<Prefix, nat>, d: Data, x: Conversions.Import)
    requires RowsUnique(d) && Covers(sequences, d) && x.id <= NumberOf(sequences, Imp)
    requires Stored(d, Imp, x.id) ==>
               x.key in Conversions.ImportKeys(d.imports) && Conversions.ImportKeys(d.imports)[x.key] == x.id
    ensures var after := d.(imports := Conversions.SaveImport(d.imports, x));
            && RowsUnique(after) && Covers(sequences, after)
            && Conversions.ImportKeys(after.imports) == Conversions.ImportKeys(d.imports)[x.key := x.id]
  {
    if Stored(d, Imp, x.id) {
      SavedKnownImport(d, x);
    } else {
      SavedNewImport(d, x);
    }
    ImportRows(sequences, d, Conversions.SaveImport(d.imports, x), x.id);
  }

  lemma SavedKnownImport(d: Data, x: Conversions.Import)
    requires RowsUnique(d) && x.key in Conversions.ImportKeys(d.imports) && Conversions.ImportKeys(d.imports)[x.key] == x.id
    ensures var after := Conversions.SaveImport(d.imports, x);
            && (forall i, k :: 0 <= i < k < |after| ==> after[i].id != after[k].id)
            && (forall i :: 0 <= i < |after| ==> after[i].id == x.id || Stored(d, Imp, after[i].id))
            && Conversions.ImportKeys(after) == Conversions.ImportKeys(d.imports)[x.key := x.id]
  {
    var imports := d.imports;
    Conversions.ImportKeysAt(imports, x.key);
    var i :| Conversions.LastOf(imports, i) && imports[i].key == x.key && imports[i].id == Conversions.ImportKeys(imports)[x.key];
    Conversions.SaveInPlace(imports, i, x);
    SameKeys(imports, i, x);
    KnownImportRows(d, i, x);
  }

  lemma KnownImportRows(d: Data, i: nat, x: Conversions.Import)
    requires RowsUnique(d) && i < |d.imports| && d.imports[i].id == x.id
    ensures var after := d.imports[i := x];
            && (forall a, b :: 0 <= a < b < |after| ==> after[a].id != after[b].id)
            && (forall a :: 0 <= a < |after| ==> after[a].id == x.id || Stored(d, Imp, after[a].id))
  {
    forall k | 0 <= k < |d.imports| ensures Stored(d, Imp, d.imports[k].id) {
    }
  }

  lemma SavedNewImport(d: Data, x: Conversions.Import)
    requires RowsUnique(d) && !Stored(d, Imp, x.id)
    ensures var after := Conversions.SaveImport(d.imports, x);
            && (forall i, k :: 0 <= i < k < |after| ==> after[i].id != after[k].id)
            && (forall i :: 0 <= i < |after| ==> after[i].id == x.id || Stored(d, Imp, after[i].id))
            && Conversions.ImportKeys(after) == Conversions.ImportKeys(d.imports)[x.key := x.id]
  {
    var imports := d.imports;
    assert forall i :: 0 <= i < |imports| ==> imports[i].id != x.id;
    Conversions.SaveAtEnd(imports, x);
    assert (imports + [x])[..|imports|] == imports;
    forall k | 0 <= k < |imports| ensures Stored(d, Imp, imports[k].id) {
    }
  }

  /** Rows whose ids are those of the document, or one more that was handed out, stay unique and covered. */
  lemma ImportRows(sequences: map<Prefix, nat>, d: Data, imports: seq<Conversions.Import>, id: nat)
    requires RowsUnique(d) && Covers(sequences, d) && id <= NumberOf(sequences, Imp)
    requires forall i, k :: 0 <= i < k < |imports| ==> imports[i].id != imports[k].id
    requires forall i :: 0 <= i < |imports| ==> imports[i].id == id || Stored(d, Imp, imports[i].id)
    ensures RowsUnique(d.(imports := imports)) && Covers(sequences, d.(imports := imports))
  {
    forall p, x: nat | Stored(d.(imports := imports), p, x) ensures x <= NumberOf(sequences, p) {
      assert Stored(d, p, x) || (p == Imp && x == id);
    }
  }

  lemma SavedCampaign(sequences: map<Prefix, nat>, d: Data, c: Campaign)
    requires RowsUnique(d) && Covers(sequences, d) && c.id <= NumberOf(sequences, Cmp)
    requires forall i :: 0 <= i < |d.campaigns| ==> (d.campaigns[i].id == c.id <==> d.campaigns[i].token == c.token)
    ensures var after := d.(campaigns := SaveRow(d.campaigns, c));
            && RowsUnique(after) && Covers(sequences, after)
            && TokenIndex(after.campaigns) == TokenIndex(d.campaigns)[c.token := c.id]
  {
    if Stored(d, Cmp, c.id) {
      SavedKnownCampaign(d, c);
    } else {
      forall i | 0 <= i < |d.campaigns| ensures d.campaigns[i].id != c.id {
        assert d.campaigns[i].id == c.id ==> Stored(d, Cmp, c.id);
      }
      SavedNewCampaign(d, c);
    }
    CampaignRows(sequences, d, SaveRow(d.campaigns, c), c.id);
  }

  /** Both rows and index of a save: in place for a known id, at the end for a new one. */
  lemma SavedKnownCampaign(d: Data, c: Campaign)
    requires RowsUnique(d) && Stored(d, Cmp, c.id)
    requires forall i :: 0 <= i < |d.campaigns| ==> (d.campaigns[i].id == c.id <==> d.campaigns[i].token == c.token)
    ensures var after := SaveRow(d.campaigns, c);
            && CampaignsUnique(after) && OnlyStoredOr(d, after, c.id)
            && TokenIndex(after) == TokenIndex(d.campaigns)[c.token := c.id]
  {
    var campaigns := d.campaigns;
    var i :| 0 <= i < |campaigns| && campaigns[i].id == c.id;
    SaveRowInPlace(campaigns, i, c);
    SameTokens(campaigns, i, c);
    TokenOf(campaigns, i);
    KnownRows(d, i, c);
  }

  lemma KnownRows(d: Data, i: nat, c: Campaign)
    requires RowsUnique(d) && i < |d.campaigns| && d.campaigns[i].id == c.id && d.campaigns[i].token == c.token
    ensures CampaignsUnique(d.campaigns[i := c]) && OnlyStoredOr(d, d.campaigns[i := c], c.id)
  {
    forall k | 0 <= k < |d.campaigns| ensures Stored(d, Cmp, d.campaigns[k].id) {
    }
  }

  lemma SavedNewCampaign(d: Data, c: Campaign)
    requires RowsUnique(d) && forall i :: 0 <= i < |d.campaigns| ==> d.campaigns[i].id != c.id && d.campaigns[i].token != c.token
    ensures var after := SaveRow(d.campaigns, c);
            && CampaignsUnique(after) && OnlyStoredOr(d, after, c.id)
            && TokenIndex(after) == TokenIndex(d.campaigns)[c.token := c.id]
  {
    SaveRowAtEnd(d.campaigns, c);
    TokenAppend(d.campaigns, c);
    NewRows(d, c);
  }

  lemma TokenAppend(campaigns: seq<Campaign>, c: Campaign)
    ensures TokenIndex(campaigns + [c]) == TokenIndex(campaigns)[c.token := c.id]
  {
    assert (campaigns + [c])[..|campaigns|] == campaigns;
  }

  lemma NewRows(d: Data, c: Campaign)
    requires RowsUnique(d) && forall i :: 0 <= i < |d.campaigns| ==> d.campaigns[i].id != c.id && d.campaigns[i].token != c.token
    ensures CampaignsUnique(d.campaigns + [c]) && OnlyStoredOr(d, d.campaigns + [c], c.id)
  {
    forall k | 0 <= k < |d.campaigns| ensures Stored(d, Cmp, d.campaigns[k].id) {
    }
  }

  ghost predicate CampaignsUnique(campaigns: seq<Campaign>) {
    forall i, k :: 0 <= i < k < |campaigns| ==> campaigns[i].id != campaigns[k].id && campaigns[i].token != campaigns[k].token
  }

  ghost predicate OnlyStoredOr(d: Data, campaigns: seq<Campaign>, id: nat) {
    forall i :: 0 <= i < |campaigns| ==> campaigns[i].id == id || Stored(d, Cmp, campaigns[i].id)
  }

  lemma CampaignRows(sequences: map<Prefix, nat>, d: Data, campaigns: seq<Campaign>, id: nat)
    requires RowsUnique(d) && Covers(sequences, d) && id <= NumberOf(sequences, Cmp)
    requires CampaignsUnique(campaigns) && OnlyStoredOr(d, campaigns, id)
    ensures RowsUnique(d.(campaigns := campaigns)) && Covers(sequences, d.(campaigns := campaigns))
  {
    forall p, x: nat | Stored(d.(campaigns := campaigns), p, x) ensures x <= NumberOf(sequences, p) {
      assert Stored(d, p, x) || (p == Cmp && x == id);
    }
  }

  // --- the store -----------------------------------------------------------------------------------------------------

  class CampaignStore {
    var sequences: Sequences
    var data: Data
    var tokenIndex: map<Token, CampaignId>
    var eventKeys: map<Key, EventId>
    var touchesByIdentity: map<Identity, seq<EventId>>
    var importKeys: map<Conversions.DedupKey, Conversions.ImportId>
    var disk: Document

    /** The live indexes are the rebuilt ones, the live rows are the written ones, and sequences only ever lead. */
    ghost predicate Valid()
      reads this, sequences
    {
      && RowsUnique(data) && Covers(sequences.next, data)
      && tokenIndex == TokenIndex(data.campaigns) && eventKeys == EventKeys(data.events)
      && touchesByIdentity == TouchIndex(data.events) && importKeys == Conversions.ImportKeys(data.imports)
      && disk.data == data && AtLeast(sequences.next, disk.sequences)
    }

    /** Loading a written document; sequences it lacks are derived from the ids it holds. */
    constructor Load(document: Document)
      requires RowsUnique(document.data)
      ensures Valid() && data == document.data && disk == document && fresh(sequences)
      ensures Needed(document, sequences.next)
    {
      sequences := new Sequences(document.sequences);
      data, disk := document.data, document;
      tokenIndex, eventKeys, touchesByIdentity, importKeys := map[], map[], map[], map[];
      new;
      var bumped := BumpSequences(document);
      sequences.next := bumped;
      RebuildIndexes();
    }

    method RebuildIndexes()
      modifies this`tokenIndex, this`eventKeys, this`touchesByIdentity, this`importKeys
      ensures tokenIndex == TokenIndex(data.campaigns) && eventKeys == EventKeys(data.events)
      ensures touchesByIdentity == TouchIndex(data.events) && importKeys == Conversions.ImportKeys(data.imports)
    {
      var tokens: map<Token, CampaignId> := map[];
      for i := 0 to |data.campaigns|
        invariant tokens == TokenIndex(data.campaigns[..i])
      {
        assert data.campaigns[..i + 1][..i] == data.campaigns[..i];
        tokens := tokens[data.campaigns[i].token := data.campaigns[i].id];
      }
      var keys: map<Key, EventId> := map[];
      var touches: map<Identity, seq<EventId>> := map[];
      for i := 0 to |data.events|
        invariant keys == EventKeys(data.events[..i]) && touches == TouchIndex(data.events[..i])
      {
        assert data.events[..i + 1][..i] == data.events[..i];
        var e := data.events[i];
        keys := keys[e.key := e.id];
        if IsTouchStage(e) {
          touches := touches[e.identity.value := Lookup(touches, e.identity.value) + [e.id]];
        }
      }
      var imports: map<Conversions.DedupKey, Conversions.ImportId> := map[];
      for i := 0 to |data.imports|
        invariant imports == Conversions.ImportKeys(data.imports[..i])
      {
        assert data.imports[..i + 1][..i] == data.imports[..i];
        imports := imports[data.imports[i].key := data.imports[i].id];
      }
      assert data.campaigns[..|data.campaigns|] == data.campaigns && data.events[..|data.events|] == data.events;
      assert data.imports[..|data.imports|] == data.imports;
      tokenIndex, eventKeys, touchesByIdentity, importKeys := tokens, keys, touches, imports;
    }

    /** The start of a transaction: a draft over copies, with the indexes of the live state. */
    method Begin() returns (draft: CampaignDraft)
      requires Valid()
      ensures fresh(draft) && draft.sequences == sequences && draft.data == data && draft.Valid() && !draft.changed
    {
      draft := new CampaignDraft(sequences, data, tokenIndex, eventKeys, importKeys);
    }

    /**
     * The end of a transaction. A failed write leaves rows, indexes and file as they were; a written one makes
     * the draft the live state, with the indexes the draft kept incrementally.
     */
    method Finish(draft: CampaignDraft, writes: bool) returns (committed: bool)
      requires Valid() && draft.Valid() && draft.sequences == sequences
      modifies this`data, this`disk, this`tokenIndex, this`eventKeys, this`touchesByIdentity, this`importKeys
      ensures Valid() && (committed <==> draft.changed && writes)
      ensures if committed
              then && data == draft.data && disk == Document(data, sequences.next)
                   && tokenIndex == draft.tokenIndex && eventKeys == draft.eventKeys && importKeys == draft.importKeys
              else && data == old(data) && disk == old(disk)
                   && tokenIndex == old(tokenIndex) && eventKeys == old(eventKeys)
                   && touchesByIdentity == old(touchesByIdentity) && importKeys == old(importKeys)
    {
      committed := draft.changed && writes;
      if !committed { return; }
      disk := Document(draft.data, sequences.next);
      data := draft.data;
      RebuildIndexes();
    }

    /** A restart gives back the same rows and the same indexes; its sequences can only be behind. */
    method Restart() returns (again: CampaignStore)
      requires Valid()
      ensures fresh(again) && again.Valid() && again.data == data && again.tokenIndex == tokenIndex
      ensures again.eventKeys == eventKeys && again.touchesByIdentity == touchesByIdentity && again.importKeys == importKeys
      ensures AtLeast(sequences.next, again.sequences.next)
    {
      again := new CampaignStore.Load(disk);
    }

    /** Touches through the identity index: what a scan of all events lists. */
    method ListTouches(identity: Identity) returns (touches: seq<Touch>)
      requires Valid()
      ensures touches == TouchesOf(data.events, identity)
    {
      TouchIndexAt(data.events, identity);
      var ids := Lookup(touchesByIdentity, identity);
      touches := [];
      for i := 0 to |ids|
        invariant touches == Resolve(data.events, ids[..i])
      {
        assert ids[..i + 1] == ids[..i] + [ids[i]];
        ResolveAppend(data.events, ids[..i], ids[i]);
        var event := FindEvent(data.events, ids[i]);
        if event.Some? && event.value.identity.Some? && event.value.campaign.Some? {
          touches := touches + [ToTouch(event.value)];
        }
      }
      assert ids[..|ids|] == ids && data.events[..|data.events|] == data.events;
      IndexedTouchesAreScanned(data.events, |data.events|, identity);
    }

    /** One ingestion from begin to end: recorded once, or nothing but an id is used up. */
    method Ingest(stage: Stage, campaign: Option<CampaignId>, identity: Option<Identity>, at: int, now: int, key: Key, writes: bool)
        returns (recorded: bool)
      requires Valid()
      modifies this`data, this`disk, this`tokenIndex, this`eventKeys, this`touchesByIdentity, this`importKeys, sequences
      ensures Valid() && (recorded <==> writes && !old(HasKey(data.events, key)))
      ensures if recorded
              then && |data.events| == |old(data).events| + 1
                   && var e := data.events[|old(data).events|];
                      && e == Event(e.id, stage, campaign, identity, at, now, key) && !old(Stored(data, Evt, e.id))
                      && data == old(data).(events := old(data).events + [e])
              else data == old(data) && disk == old(disk)
      ensures AtLeast(sequences.next, old(sequences.next))
    {
      var draft := Begin();
      var duplicate := draft.HasEventKey(key);
      if duplicate { return false; }
      label before:
      var id := draft.NextId(Evt);
      assert !Stored(data, Evt, id);
      draft.SaveEvent(Event(id, stage, campaign, identity, at, now, key));
      LeadKept(old@before(sequences.next), sequences.next, data, disk.sequences);
      recorded := Finish(draft, writes);
    }

    /**
     * A campaign gets the first unused one of a few random tokens; when all of them are taken, or the write fails,
     * nothing is stored.
     */
    method CreateCampaign(name: string, tokens: nat -> Token, writes: bool) returns (created: Option<CampaignId>)
      requires Valid()
      modifies this`data, this`disk, this`tokenIndex, this`eventKeys, this`touchesByIdentity, this`importKeys, sequences
      ensures Valid() && AtLeast(sequences.next, old(sequences.next))
      ensures created.Some? <==> writes && exists k :: 0 <= k < TOKEN_ATTEMPTS && !TokenUsed(old(data).campaigns, tokens(k))
      ensures created.None? ==> data == old(data) && disk == old(disk)
      ensures created.Some? ==>
                && !Stored(old(data), Cmp, created.value)
                && exists token :: !TokenUsed(old(data).campaigns, token) &&
                     data.campaigns == old(data).campaigns + [Campaign(created.value, token, name)]
    {
      var draft := Begin();
      var picked := draft.PickToken(tokens);
      if picked.None? { return None; }
      var id := draft.AddCampaign(name, picked.value);
      LeadKept(old(sequences.next), sequences.next, data, disk.sequences);
      var committed := Finish(draft, writes);
      return if committed then Some(id) else None;
    }
  }

  lemma NewCampaignFits(d: Data, c: Campaign)
    requires !Stored(d, Cmp, c.id) && !TokenUsed(d.campaigns, c.token)
    ensures forall i :: 0 <= i < |d.campaigns| ==> d.campaigns[i].id != c.id && d.campaigns[i].token != c.token
  {
    forall i | 0 <= i < |d.campaigns| ensures d.campaigns[i].id != c.id && d.campaigns[i].token != c.token {
      assert d.campaigns[i].id == c.id ==> Stored(d, Cmp, c.id);
      assert d.campaigns[i].token == c.token ==> TokenUsed(d.campaigns, c.token);
    }
  }

  lemma LeadKept(was: map<Prefix, nat>, now: map<Prefix, nat>, d: Data, written: map<Prefix, nat>)
    requires Covers(was, d) && AtLeast(was, written) && AtLeast(now, was)
    ensures Covers(now, d) && AtLeast(now, written)
  {
    CoversMore(now, was, d);
    forall p ensures NumberOf(written, p) <= NumberOf(now, p) {
      assert NumberOf(written, p) <= NumberOf(was, p) <= NumberOf(now, p);
    }
  }

  // --- sequences after a load --------------------------------------------------------------------------------------------

  function Bump(sequences: map<Prefix, nat>, p: Prefix, id: nat): map<Prefix, nat> {
    if id > NumberOf(sequences, p) then sequences[p := id] else sequences
  }

  /** Not beyond what any sequences need that cover the document and its stored numbers. */
  ghost predicate Needed(document: Document, now: map<Prefix, nat>) {
    forall bound :: Covers(bound, document.data) && AtLeast(bound, document.sequences) ==> AtLeast(bound, now)
  }

  lemma BumpNeeded(document: Document, now: map<Prefix, nat>, p: Prefix, id: nat)
    requires Needed(document, now) && Stored(document.data, p, id)
    ensures Needed(document, Bump(now, p, id))
  {
    forall bound | Covers(bound, document.data) && AtLeast(bound, document.sequences)
      ensures AtLeast(bound, Bump(now, p, id))
    {
      assert AtLeast(bound, now);
    }
  }

  lemma AtLeastAgain(a: map<Prefix, nat>, b: map<Prefix, nat>, c: map<Prefix, nat>)
    requires AtLeast(a, b) && AtLeast(b, c)
    ensures AtLeast(a, c)
  {
    forall p ensures NumberOf(c, p) <= NumberOf(a, p) {
      assert NumberOf(c, p) <= NumberOf(b, p) <= NumberOf(a, p);
    }
  }

  /** Raise one sequence over a set of stored ids. */
  method BumpAll(document: Document, was: map<Prefix, nat>, p: Prefix, ids: set<nat>) returns (now: map<Prefix, nat>)
    requires Needed(document, was) && AtLeast(was, document.sequences)
    requires forall id :: id in ids ==> Stored(document.data, p, id)
    ensures Needed(document, now) && AtLeast(now, was) && AtLeast(now, document.sequences)
    ensures forall id :: id in ids ==> id <= NumberOf(now, p)
  {
    now := was;
    var rest := ids;
    while rest != {}
      invariant rest <= ids && Needed(document, now) && AtLeast(now, was)
      invariant forall id :: id in ids && id !in rest ==> id <= NumberOf(now, p)
      decreases |rest|
    {
      var id :| id in rest;
      rest := rest - {id};
      BumpNeeded(document, now, p, id);
      ghost var before := now;
      now := Bump(now, p, id);
      assert AtLeast(now, before);
      forall x | x in ids && x !in rest ensures x <= NumberOf(now, p) {
        assert x != id ==> x <= NumberOf(before, p);
      }
    }
    AtLeastAgain(now, was, document.sequences);
  }

  method BumpSequences(document: Document) returns (now: map<Prefix, nat>)
    ensures Covers(now, document.data) && AtLeast(now, document.sequences)
    ensures Needed(document, now)
  {
    var d := document.data;
    var campaigns := set i | 0 <= i < |d.campaigns| :: d.campaigns[i].id;
    var events := set i | 0 <= i < |d.events| :: d.events[i].id;
    var imports := set i | 0 <= i < |d.imports| :: d.imports[i].id;
    var audit := set i | 0 <= i < |d.audit| :: d.audit[i];
    var n1 := BumpAll(document, document.sequences, Cmp, campaigns);
    var n2 := BumpAll(document, n1, Evt, events);
    var n3 := BumpAll(document, n2, Cnv, d.conversions.Keys);
    var n4 := BumpAll(document, n3, Imp, imports);
    now := BumpAll(document, n4, Aud, audit);
    AtLeastAgain(now, n4, n3);
    AtLeastAgain(now, n3, n2);
    AtLeastAgain(now, n2, n1);
    forall p, id: nat | Stored(d, p, id) ensures id <= NumberOf(now, p) {
      match p {
        case Cmp => assert id in campaigns && NumberOf(n1, p) <= NumberOf(now, p);
        case Evt => assert id in events && NumberOf(n2, p) <= NumberOf(now, p);
        case Cnv => assert id in d.conversions.Keys && NumberOf(n3, p) <= NumberOf(now, p);
        case Imp => assert id in imports && NumberOf(n4, p) <= NumberOf(now, p);
        case Aud => assert id in audit;
      }
    }
  }
}
