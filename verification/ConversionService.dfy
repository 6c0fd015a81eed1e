/** Registering, correcting and importing, as the service does it. */
module ConversionService {
  import opened Common
  import opened Attribution
  import opened Conversions

  datatype Reply<+T> = Done(value: T) | InvalidIdentity | InvalidTime | Conflict(existing: nat) | NotFound | InvalidImport
                     | NotPersisted

  class ConversionService {
    const window: nat
    var conversions: map<ConversionId, Conversion>
    var imports: seq<Import>
    var importKeys: map<DedupKey, ImportId>
    var nextId: nat

    constructor (window: nat)
      ensures this.window == window && Rows() == Empty() && Indexed()
    {
      this.window := window;
      conversions, imports, importKeys, nextId := map[], [], map[], 0;
    }

    function Rows(): Ledger
      reads this
    {
      Ledger(conversions, imports, nextId)
    }

    ghost predicate Indexed()
      reads this
    {
      importKeys == ImportKeys(imports)
    }

    /** The ACTIVE row of one kind and identity. */
    method FindActive(kind: Kind, identity: Identity) returns (found: Option<ConversionId>)
      ensures found.Some? <==> HasActive(Rows(), kind, identity)
      ensures found.None? ==> forall id :: id in conversions ==>
                conversions[id].kind != kind || conversions[id].identity != identity || conversions[id].status != Active
      ensures found.Some? ==>
                && found.value in ActiveRows(conversions)
                && conversions[found.value].kind == kind && conversions[found.value].identity == identity
    {
      found := None;
      var rest := conversions.Keys;
      while rest != {} && found.None?
        invariant rest <= conversions.Keys
        invariant found.None? ==>
                    forall id :: id in ActiveRows(conversions) && conversions[id].kind == kind && conversions[id].identity == identity
                      ==> id in rest
        invariant found.Some? ==>
                    && found.value in ActiveRows(conversions)
                    && conversions[found.value].kind == kind && conversions[found.value].identity == identity
        decreases |rest|
      {
        var id :| id in rest;
        rest := rest - {id};
        if conversions[id].status == Active && conversions[id].kind == kind && conversions[id].identity == identity {
          found := Some(id);
        }
      }
      if found.None? {
        forall id | id in conversions
          ensures conversions[id].kind != kind || conversions[id].identity != identity || conversions[id].status != Active
        {
          assert id in ActiveRows(conversions) <==> conversions[id].status == Active;
        }
      }
    }

    /** `touches` are those of the resolved identity; the credit is decided at the time of the conversion. */
    method RegisterConversion(kind: Kind, identity: Option<Identity>, at: Option<int>, touches: seq<Touch>, writes: bool)
        returns (reply: Reply<ConversionId>)
      requires Indexed()
      modifies this`conversions, this`nextId
      ensures Indexed()
      ensures identity.None? ==> reply == InvalidIdentity
      ensures identity.Some? && at.None? ==> reply == InvalidTime
      ensures identity.Some? && at.Some? ==>
                if HasActive(old(Rows()), kind, identity.value) then reply.Conflict?
                else reply == if writes then Done(old(nextId)) else NotPersisted
      ensures reply.Done? ==>
                && Rows() == Register(old(Rows()), Fresh(kind, identity.value, at.value,
                                                         DecideAttribution(LastTouch, touches, Query(at.value, window))))
                && !HasActive(old(Rows()), kind, identity.value)
                && var credit := DecideAttribution(LastTouch, touches, Query(at.value, window));
                   conversions == old(conversions)[reply.value := Conversion(kind, identity.value, at.value, credit.campaign,
                                                                             credit.bucket, Active, None)]
      ensures !reply.Done? ==> Rows() == old(Rows()).(nextId := nextId)
    {
      if identity.None? { return InvalidIdentity; }
      if at.None? { return InvalidTime; }
      var existing := FindActive(kind, identity.value);
      if existing.Some? { return Conflict(existing.value); }
      var credit := Credited(touches, Query(at.value, window));
      CreditedIsLastTouch(touches, Query(at.value, window));
      var id := nextId;
      nextId := nextId + 1;
      if !writes { return NotPersisted; }
      conversions := conversions[id := Fresh(kind, identity.value, at.value, credit)];
      return Done(id);
    }

    method CorrectConversion(id: ConversionId, at: Option<Option<int>>, touches: seq<Touch>, writes: bool)
        returns (reply: Reply<ConversionId>)
      requires Indexed()
      modifies this`conversions, this`nextId
      ensures Indexed()
      ensures id !in old(conversions) ==> reply == NotFound
      ensures id in old(conversions) && old(conversions)[id].status == Corrected ==> reply.Conflict?
      ensures id in old(conversions) && old(conversions)[id].status == Active ==>
                reply == if at == Some(None) then InvalidTime else if writes then Done(old(nextId)) else NotPersisted
      ensures reply.Done? ==>
                && id in old(conversions) && at != Some(None)
                && var time := if at.None? then old(conversions)[id].at else at.value.value;
                   var credit := DecideAttribution(LastTouch, touches, Query(time, window));
                   var was := old(conversions)[id];
                   && Rows() == Correct(old(Rows()), id, time, credit)
                   && conversions == old(conversions)[id := was.(status := Corrected, supersededBy := Some(reply.value))]
                                                     [reply.value := Conversion(was.kind, was.identity, time, credit.campaign,
                                                                                credit.bucket, Active, None)]
      ensures !reply.Done? ==> Rows() == old(Rows()).(nextId := nextId)
    {
      if id !in conversions { return NotFound; }
      var current := conversions[id];
      if current.status != Active { return Conflict(id); }
      if at == Some(None) { return InvalidTime; }
      var time := if at.None? then current.at else at.value.value;
      var credit := Credited(touches, Query(time, window));
      CreditedIsLastTouch(touches, Query(time, window));
      var replacement := nextId;
      nextId := nextId + 1;
      if !writes { return NotPersisted; }
      conversions := conversions[id := current.(status := Corrected, supersededBy := Some(replacement))];
      conversions := conversions[replacement := Fresh(current.kind, current.identity, time, credit)];
      return Done(replacement);
    }

    /** A second number for the same key is refused unless it is meant to replace the first. */
    method Import(key: DedupKey, value: int, campaignKnown: bool, replaceExisting: bool, writes: bool)
        returns (reply: Reply<ImportId>)
      requires Indexed() && ImportsOk(imports, nextId)
      modifies this`imports, this`importKeys, this`nextId
      ensures Indexed() && ImportsOk(imports, nextId)
      ensures value < 0 ==> reply == InvalidImport
      ensures value >= 0 && !campaignKnown ==> reply == NotFound
      ensures value >= 0 && campaignKnown ==>
                if key in old(importKeys) && !replaceExisting then reply == Conflict(old(importKeys)[key])
                else reply == if writes then Done(old(nextId)) else NotPersisted
      ensures reply.Done? ==>
                && Rows() == ImportAggregate(old(Rows()), key, value)
                && key in importKeys && importKeys[key] == reply.value
                && Supersedes(old(imports), imports, key, value, reply.value)
      ensures !reply.Done? ==> Rows() == old(Rows()).(nextId := nextId)
    {
      if value < 0 { return InvalidImport; }
      if !campaignKnown { return NotFound; }
      var existing := FindCounted(key);
      if existing.Some? && !replaceExisting { return Conflict(existing.value); }
      ImportKeeps(Rows(), key, value);
      AddedLast(Rows(), key, value);
      RowsReplaced(Rows(), key, value);
      var id := nextId;
      var draft := DraftImport(key, value);
      nextId := nextId + 1;
      if !writes { return NotPersisted; }
      imports, importKeys := draft, ImportKeys(draft);
      return Done(id);
    }

    /** The rows of the draft: the counted one superseded, then the new one added. */
    method DraftImport(key: DedupKey, value: nat) returns (draft: seq<Import>)
      requires Indexed()
      ensures draft == ImportAggregate(Rows(), key, value).imports
    {
      draft := imports;
      if key in importKeys {
        var current := FindById(imports, importKeys[key]);
        if current.Some? {
          draft := SaveImport(draft, current.value.(status := Superseded));
        }
      }
      draft := SaveImport(draft, Conversions.Import(nextId, key, value, Counted));
    }

    /** The scan for a counted row of a key finds what the index points at. */
    method FindCounted(key: DedupKey) returns (found: Option<ImportId>)
      requires Indexed() && ImportsOk(imports, nextId)
      ensures found == if key in importKeys then Some(importKeys[key]) else None
    {
      ImportKeysAt(imports, key);
      for i := 0 to |imports|
        invariant forall k :: 0 <= k < i ==> imports[k].key != key || imports[k].status != Counted
      {
        if imports[i].key == key && imports[i].status == Counted {
          OneCountedImport(imports, nextId, i);
          return Some(imports[i].id);
        }
      }
      NoneCounted(imports, nextId, key);
      return None;
    }
  }

  /** The new row is last, and of the others exactly the counted row of its key has been superseded. */
  ghost predicate Supersedes(was: seq<Import>, now: seq<Import>, key: DedupKey, value: int, id: ImportId) {
    && value >= 0 && |now| == |was| + 1 && now[|was|] == Conversions.Import(id, key, value, Counted)
    && forall i :: 0 <= i < |was| ==>
         now[i] == if was[i].key == key && was[i].status == Counted then was[i].(status := Superseded) else was[i]
  }

  lemma MarkedThenAdded(was: seq<Import>, i: nat, key: DedupKey, value: nat, id: ImportId)
    requires i < |was| && was[i].key == key && was[i].status == Counted
    requires forall k :: 0 <= k < |was| && was[k].key == key && was[k].status == Counted ==> k == i
    ensures Supersedes(was, was[i := was[i].(status := Superseded)] + [Conversions.Import(id, key, value, Counted)], key, value, id)
  {
  }

  lemma RowsReplaced(ledger: Ledger, key: DedupKey, value: nat)
    requires ImportsOk(ledger.imports, ledger.nextId)
    ensures Supersedes(ledger.imports, ImportAggregate(ledger, key, value).imports, key, value, ledger.nextId)
  {
    var imports := ledger.imports;
    var added := Conversions.Import(ledger.nextId, key, value, Counted);
    ImportKeysAt(imports, key);
    if key in ImportKeys(imports) {
      var i :| LastOf(imports, i) && imports[i].key == key && imports[i].id == ImportKeys(imports)[key];
      FindByIdAt(imports, i);
      SaveInPlace(imports, i, imports[i].(status := Superseded));
      SaveAtEnd(imports[i := imports[i].(status := Superseded)], added);
      OneCountedImport(imports, ledger.nextId, i);
      MarkedThenAdded(imports, i, key, value, ledger.nextId);
    } else {
      SaveAtEnd(imports, added);
    }
  }

  lemma NoneCounted(imports: seq<Import>, nextId: nat, key: DedupKey)
    requires ImportsOk(imports, nextId)
    requires forall k :: 0 <= k < |imports| ==> imports[k].key != key || imports[k].status != Counted
    ensures key !in ImportKeys(imports)
  {
    ImportKeysAt(imports, key);
  }

  lemma CreditedIsLastTouch(touches: seq<Touch>, q: Query)
    ensures Credited(touches, q) == DecideAttribution(LastTouch, touches, q)
  {
    CreditIsLastTouch(touches, q);
  }

  lemma AddedLast(ledger: Ledger, key: DedupKey, value: nat)
    requires ImportsOk(ledger.imports, ledger.nextId)
    ensures var imports := ImportAggregate(ledger, key, value).imports;
            key in ImportKeys(imports) && ImportKeys(imports)[key] == ledger.nextId
  {
    var imports := ledger.imports;
    var added := Conversions.Import(ledger.nextId, key, value, Counted);
    ImportKeysAt(imports, key);
    if key in ImportKeys(imports) {
      var i :| LastOf(imports, i) && imports[i].key == key && imports[i].id == ImportKeys(imports)[key];
      FindByIdAt(imports, i);
      var marked := imports[i].(status := Superseded);
      SaveInPlace(imports, i, marked);
      SaveAtEnd(imports[i := marked], added);
    } else {
      SaveAtEnd(imports, added);
    }
  }
}
