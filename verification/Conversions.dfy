/** Conversions and imported aggregates: corrections that append, and imports of which one per key counts. */
module Conversions {
  import opened Common
  import opened Attribution

  type ConversionId = nat
  type ImportId = nat
  type Identity = string
  type DedupKey = string

  datatype Kind = Lead | Customer
  datatype ConversionStatus = Active | Corrected
  datatype Conversion = Conversion(kind: Kind, identity: Identity, at: int, campaign: Option<CampaignId>, bucket: Bucket,
                                   status: ConversionStatus, supersededBy: Option<ConversionId>)

  datatype ImportStatus = Counted | Superseded
  datatype Import = Import(id: ImportId, key: DedupKey, value: nat, status: ImportStatus)

  /** `imports` is in insertion order, as the stored map iterates; the index is rebuilt from it at every commit. */
  datatype Ledger = Ledger(conversions: map<ConversionId, Conversion>, imports: seq<Import>, nextId: nat)

  // --- transactions ------------------------------------------------------------------------------------------------

  /** The credit frozen into a row: last touch first, then first touch. */
  function Credited(touches: seq<Touch>, q: Query): Decision {
    var first, last := DecideAttribution(FirstTouch, touches, q), DecideAttribution(LastTouch, touches, q);
    if last.campaign.Some? then last else if first.campaign.Some? then first else last
  }

  function Fresh(kind: Kind, identity: Identity, at: int, credit: Decision): Conversion {
    Conversion(kind, identity, at, credit.campaign, credit.bucket, Active, None)
  }

  function Register(ledger: Ledger, row: Conversion): Ledger {
    ledger.(conversions := ledger.conversions[ledger.nextId := row], nextId := ledger.nextId + 1)
  }

  /** The old row stays, marked and linked; the new one has its kind and identity. */
  function Correct(ledger: Ledger, id: ConversionId, at: int, credit: Decision): Ledger {
    if id !in ledger.conversions || ledger.conversions[id].status != Active then ledger
    else
      var current := ledger.conversions[id];
      var marked := ledger.conversions[id := current.(status := Corrected, supersededBy := Some(ledger.nextId))];
      ledger.(conversions := marked[ledger.nextId := Fresh(current.kind, current.identity, at, credit)],
              nextId := ledger.nextId + 1)
  }

  /** Insertion order, last one wins. */
  function ImportKeys(imports: seq<Import>): map<DedupKey, ImportId> {
    if imports == [] then map[]
    else ImportKeys(imports[..|imports| - 1])[imports[|imports| - 1].key := imports[|imports| - 1].id]
  }

  /** A row of a known id is replaced in place. */
  function SaveImport(imports: seq<Import>, x: Import): seq<Import> {
    if imports == [] then [x]
    else if imports[0].id == x.id then [x] + imports[1..]
    else [imports[0]] + SaveImport(imports[1..], x)
  }

  function FindById(imports: seq<Import>, id: ImportId): Option<Import> {
    if imports == [] then None
    else if imports[0].id == id then Some(imports[0]) else FindById(imports[1..], id)
  }

  /** The row the index points at is superseded before its replacement is added. */
  function ImportAggregate(ledger: Ledger, key: DedupKey, value: nat): Ledger {
    var keys := ImportKeys(ledger.imports);
    var current := if key in keys then FindById(ledger.imports, keys[key]) else None;
    var kept := if current.Some? then SaveImport(ledger.imports, current.value.(status := Superseded)) else ledger.imports;
    ledger.(imports := SaveImport(kept, Import(ledger.nextId, key, value, Counted)), nextId := ledger.nextId + 1)
  }

  /**
   * `ok` is whether the write succeeded; a discarded draft has only consumed its id. A restart reloads the live rows
   * and takes the id sequence from the document, where it may lag, but it is above every stored id. `replace` is
   * whether the operator has asked to replace a number; the check of that is made before the transaction.
   */
  datatype Action =
    | Registered(row: Conversion, ok: bool)
    | Amended(id: ConversionId, at: int, credit: Decision, ok: bool)
    | Imported(key: DedupKey, value: nat, replace: bool, ok: bool)
    | Restarted(next: nat)

  predicate Enabled(ledger: Ledger, a: Action) {
    match a
    case Registered(row, _) => row.status == Active && row.supersededBy.None?
    case Restarted(next) =>
      && next <= ledger.nextId && (forall id :: id in ledger.conversions ==> id < next)
      && forall i :: 0 <= i < |ledger.imports| ==> ledger.imports[i].id < next
    case _ => true
  }

  function Committed(ledger: Ledger, a: Action): Ledger {
    match a
    case Registered(row, _) => Register(ledger, row)
    case Amended(id, at, credit, _) => Correct(ledger, id, at, credit)
    case Imported(key, value, _, _) => ImportAggregate(ledger, key, value)
    case Restarted(next) => ledger.(nextId := next)
  }

  function Step(ledger: Ledger, a: Action): Ledger {
    if a.Restarted? || a.ok then Committed(ledger, a) else ledger.(nextId := Committed(ledger, a).nextId)
  }

  predicate Valid(ledger: Ledger, actions: seq<Action>)
    decreases |actions|
  {
    actions == [] || (Enabled(ledger, actions[0]) && Valid(Step(ledger, actions[0]), actions[1..]))
  }

  function Run(ledger: Ledger, actions: seq<Action>): Ledger
    decreases |actions|
  {
    if actions == [] then ledger else Run(Step(ledger, actions[0]), actions[1..])
  }

  function Empty(): Ledger {
    Ledger(map[], [], 0)
  }

  // --- chains of corrections -----------------------------------------------------------------------------------------

  /** A row is ACTIVE and last, or corrected by a later row of its kind and identity. */
  ghost predicate Linked(conversions: map<ConversionId, Conversion>, id: ConversionId)
    requires id in conversions
  {
    var row := conversions[id];
    if row.status == Active then row.supersededBy.None?
    else
      && row.supersededBy.Some? && row.supersededBy.value in conversions && row.supersededBy.value > id
      && conversions[row.supersededBy.value].kind == row.kind && conversions[row.supersededBy.value].identity == row.identity
  }

  ghost predicate ChainsOk(conversions: map<ConversionId, Conversion>, nextId: nat) {
    && (forall id :: id in conversions ==> id < nextId && Linked(conversions, id))
    && forall a, b | a in conversions && b in conversions ::
         conversions[a].supersededBy.Some? && conversions[a].supersededBy == conversions[b].supersededBy ==> a == b
  }

  lemma RegisterChains(ledger: Ledger, row: Conversion)
    requires ChainsOk(ledger.conversions, ledger.nextId) && row.status == Active && row.supersededBy.None?
    ensures ChainsOk(Register(ledger, row).conversions, Register(ledger, row).nextId)
  {
    var after := Register(ledger, row);
    forall id | id in after.conversions ensures id < after.nextId && Linked(after.conversions, id) {
      assert id != ledger.nextId ==> Linked(ledger.conversions, id);
    }
  }

  lemma CorrectChains(ledger: Ledger, id: ConversionId, at: int, credit: Decision)
    requires ChainsOk(ledger.conversions, ledger.nextId)
    ensures ChainsOk(Correct(ledger, id, at, credit).conversions, Correct(ledger, id, at, credit).nextId)
  {
    var after := Correct(ledger, id, at, credit);
    forall x | x in after.conversions ensures x < after.nextId && Linked(after.conversions, x) {
      assert x in ledger.conversions ==> Linked(ledger.conversions, x);
    }
    forall a, b | a in after.conversions && b in after.conversions &&
                  after.conversions[a].supersededBy.Some? && after.conversions[a].supersededBy == after.conversions[b].supersededBy
      ensures a == b
    {
      assert a in ledger.conversions ==> Linked(ledger.conversions, a);
      assert b in ledger.conversions ==> Linked(ledger.conversions, b);
    }
  }

  /** Follow the links to the row in force. */
  function InForce(conversions: map<ConversionId, Conversion>, nextId: nat, id: ConversionId): (end: ConversionId)
    requires ChainsOk(conversions, nextId) && id in conversions
    ensures end in conversions && conversions[end].status == Active && end >= id
    ensures conversions[end].kind == conversions[id].kind && conversions[end].identity == conversions[id].identity
    decreases nextId - id
  {
    assert Linked(conversions, id);
    if conversions[id].status == Active then id else InForce(conversions, nextId, conversions[id].supersededBy.value)
  }

  /** A row that replaced nothing: what a registration made. */
  ghost predicate IsRoot(conversions: map<ConversionId, Conversion>, id: ConversionId) {
    id in conversions && forall x :: x in conversions ==> conversions[x].supersededBy != Some(id)
  }

  /** `x` is reached from `id` by following links. */
  ghost predicate OnChain(conversions: map<ConversionId, Conversion>, nextId: nat, x: ConversionId, id: ConversionId)
    requires ChainsOk(conversions, nextId) && id in conversions
    decreases nextId - id
  {
    assert Linked(conversions, id);
    x == id ||
    (conversions[id].status == Corrected && OnChain(conversions, nextId, x, conversions[id].supersededBy.value))
  }

  /** Links are not shared: what reaches the successor of `a` from elsewhere passes through `a`. */
  lemma {:induction false} ThroughPredecessor(conversions: map<ConversionId, Conversion>, nextId: nat, a: ConversionId,
                                              id: ConversionId)
    requires ChainsOk(conversions, nextId) && a in conversions && id in conversions && conversions[a].status == Corrected
    requires conversions[a].supersededBy.Some? && conversions[a].supersededBy != Some(id)
    requires OnChain(conversions, nextId, conversions[a].supersededBy.value, id)
    ensures OnChain(conversions, nextId, a, id)
    decreases nextId - id
  {
    assert Linked(conversions, id);
    if conversions[id].supersededBy != conversions[a].supersededBy {
      ThroughPredecessor(conversions, nextId, a, conversions[id].supersededBy.value);
    }
  }

  lemma {:induction false} EndIsOnChain(conversions: map<ConversionId, Conversion>, nextId: nat, id: ConversionId)
    requires ChainsOk(conversions, nextId) && id in conversions
    ensures OnChain(conversions, nextId, InForce(conversions, nextId, id), id)
    decreases nextId - id
  {
    assert Linked(conversions, id);
    if conversions[id].status == Corrected {
      EndIsOnChain(conversions, nextId, conversions[id].supersededBy.value);
    }
  }

  lemma {:induction false} SameEndSameChain(conversions: map<ConversionId, Conversion>, nextId: nat, a: ConversionId,
                                            b: ConversionId)
    requires ChainsOk(conversions, nextId) && a in conversions && b in conversions
    requires InForce(conversions, nextId, a) == InForce(conversions, nextId, b)
    ensures OnChain(conversions, nextId, a, b) || OnChain(conversions, nextId, b, a)
    decreases nextId - a
  {
    assert Linked(conversions, a) && Linked(conversions, b);
    EndIsOnChain(conversions, nextId, a);
    EndIsOnChain(conversions, nextId, b);
    if conversions[a].status == Corrected {
      var next := conversions[a].supersededBy.value;
      SameEndSameChain(conversions, nextId, next, b);
      if OnChain(conversions, nextId, next, b) && next != b {
        ThroughPredecessor(conversions, nextId, a, b);
      }
    }
  }

  lemma {:induction false} ReachedIsNoRoot(conversions: map<ConversionId, Conversion>, nextId: nat, x: ConversionId,
                                           id: ConversionId)
    requires ChainsOk(conversions, nextId) && id in conversions && x != id && OnChain(conversions, nextId, x, id)
    ensures !IsRoot(conversions, x)
    decreases nextId - id
  {
    assert Linked(conversions, id);
    var next := conversions[id].supersededBy.value;
    if next != x {
      ReachedIsNoRoot(conversions, nextId, x, next);
    }
  }

  /** Chains are disjoint: two registrations never end in one row. */
  lemma ChainsDisjoint(conversions: map<ConversionId, Conversion>, nextId: nat, a: ConversionId, b: ConversionId)
    requires ChainsOk(conversions, nextId) && IsRoot(conversions, a) && IsRoot(conversions, b)
    requires InForce(conversions, nextId, a) == InForce(conversions, nextId, b)
    ensures a == b
  {
    SameEndSameChain(conversions, nextId, a, b);
    if a != b {
      if OnChain(conversions, nextId, a, b) {
        ReachedIsNoRoot(conversions, nextId, a, b);
      } else {
        ReachedIsNoRoot(conversions, nextId, b, a);
      }
    }
  }

  /** A chain holds exactly one ACTIVE row, its end. */
  lemma {:induction false} OneActivePerChain(conversions: map<ConversionId, Conversion>, nextId: nat, x: ConversionId,
                                             id: ConversionId)
    requires ChainsOk(conversions, nextId) && id in conversions && x in conversions
    requires OnChain(conversions, nextId, x, id) && conversions[x].status == Active
    ensures x == InForce(conversions, nextId, id)
    decreases nextId - id
  {
    assert Linked(conversions, id);
    if x != id {
      OneActivePerChain(conversions, nextId, x, conversions[id].supersededBy.value);
    }
  }

  function ActiveRows(conversions: map<ConversionId, Conversion>): set<ConversionId> {
    set id | id in conversions && conversions[id].status == Active
  }

  // --- imports -------------------------------------------------------------------------------------------------------

  ghost predicate LastOf(imports: seq<Import>, i: int) {
    0 <= i < |imports| && forall k :: i < k < |imports| ==> imports[k].key != imports[i].key
  }

  /** The last row of a key counts, every earlier one is superseded. */
  ghost predicate ImportsOk(imports: seq<Import>, nextId: nat) {
    && (forall i :: 0 <= i < |imports| ==> imports[i].id < nextId)
    && (forall i, k :: 0 <= i < k < |imports| ==> imports[i].id != imports[k].id)
    && forall i {:trigger LastOf(imports, i)} :: 0 <= i < |imports| ==>
         (imports[i].status == Counted <==> LastOf(imports, i))
  }

  /** The rebuilt index holds for each key the id of its last row. */
  lemma {:induction false} ImportKeysAt(imports: seq<Import>, key: DedupKey)
    ensures key in ImportKeys(imports) <==> exists i :: 0 <= i < |imports| && imports[i].key == key
    ensures key in ImportKeys(imports) ==>
              exists i :: LastOf(imports, i) && imports[i].key == key && imports[i].id == ImportKeys(imports)[key]
    decreases |imports|
  {
    if imports != [] {
      var n := |imports| - 1;
      ImportKeysAt(imports[..n], key);
      if imports[n].key == key {
        assert LastOf(imports, n);
      } else if key in ImportKeys(imports[..n]) {
        var i :| LastOf(imports[..n], i) && imports[..n][i].key == key && imports[..n][i].id == ImportKeys(imports[..n])[key];
        assert forall k :: i < k < n ==> imports[..n][k] == imports[k];
        assert LastOf(imports, i) && imports[i].id == ImportKeys(imports)[key];
      }
    }
  }

  lemma {:induction false} FindByIdAt(imports: seq<Import>, i: nat)
    requires i < |imports| && forall a, b :: 0 <= a < b < |imports| ==> imports[a].id != imports[b].id
    ensures FindById(imports, imports[i].id) == Some(imports[i])
    decreases |imports|
  {
    if i > 0 {
      FindByIdAt(imports[1..], i - 1);
    }
  }

  lemma {:induction false} SaveInPlace(imports: seq<Import>, i: nat, x: Import)
    requires i < |imports| && imports[i].id == x.id
    requires forall a, b :: 0 <= a < b < |imports| ==> imports[a].id != imports[b].id
    ensures SaveImport(imports, x) == imports[i := x]
    decreases |imports|
  {
    if i > 0 {
      SaveInPlace(imports[1..], i - 1, x);
      assert imports[i := x] == [imports[0]] + imports[1..][i - 1 := x];
    } else {
      assert imports[0 := x] == [x] + imports[1..];
    }
  }

  lemma {:induction false} SaveAtEnd(imports: seq<Import>, x: Import)
    requires forall i :: 0 <= i < |imports| ==> imports[i].id != x.id
    ensures SaveImport(imports, x) == imports + [x]
    decreases |imports|
  {
    if imports != [] {
      SaveAtEnd(imports[1..], x);
      assert imports + [x] == [imports[0]] + (imports[1..] + [x]);
    }
  }

  /** The one row of a key that counts is the row the rebuilt index points at. */
  lemma OneCountedImport(imports: seq<Import>, nextId: nat, i: nat)
    requires ImportsOk(imports, nextId) && i < |imports|
    ensures imports[i].status == Counted <==> LastOf(imports, i)
    ensures imports[i].key in ImportKeys(imports)
    ensures imports[i].status == Counted <==> ImportKeys(imports)[imports[i].key] == imports[i].id
    ensures imports[i].status == Counted ==>
              forall k :: 0 <= k < |imports| && imports[k].key == imports[i].key && imports[k].status == Counted ==> k == i
  {
    ImportKeysAt(imports, imports[i].key);
    var last :| LastOf(imports, last) && imports[last].key == imports[i].key &&
                imports[last].id == ImportKeys(imports)[imports[i].key];
    assert imports[i].status == Counted <==> LastOf(imports, i);
    if imports[i].status == Counted {
      forall k | 0 <= k < |imports| && imports[k].key == imports[i].key && imports[k].status == Counted ensures k == i {
        assert LastOf(imports, k);
      }
    }
  }

  lemma ImportKeeps(ledger: Ledger, key: DedupKey, value: nat)
    requires ImportsOk(ledger.imports, ledger.nextId)
    ensures ImportsOk(ImportAggregate(ledger, key, value).imports, ledger.nextId + 1)
  {
    var imports := ledger.imports;
    var added := Import(ledger.nextId, key, value, Counted);
    ImportKeysAt(imports, key);
    if key in ImportKeys(imports) {
      var i :| LastOf(imports, i) && imports[i].key == key && imports[i].id == ImportKeys(imports)[key];
      FindByIdAt(imports, i);
      var marked := imports[i].(status := Superseded);
      SaveInPlace(imports, i, marked);
      SaveAtEnd(imports[i := marked], added);
      SupersededThenAdded(imports, ledger.nextId, i, added);
    } else {
      SaveAtEnd(imports, added);
      AddedKey(imports, ledger.nextId, added);
    }
  }

  /** A row added at the end leaves those of its key no longer last, and no others. */
  lemma LastAfterAdding(imports: seq<Import>, added: Import, i: nat)
    requires i < |imports|
    ensures LastOf(imports + [added], i) <==> LastOf(imports, i) && imports[i].key != added.key
  {
    var after := imports + [added];
    assert after[|imports|] == added && forall k :: 0 <= k < |imports| ==> after[k] == imports[k];
  }

  lemma AddedKey(imports: seq<Import>, nextId: nat, added: Import)
    requires ImportsOk(imports, nextId) && added.id == nextId && added.status == Counted
    requires forall i :: 0 <= i < |imports| ==> imports[i].key != added.key
    ensures ImportsOk(imports + [added], nextId + 1)
  {
    var after := imports + [added];
    forall i | 0 <= i < |after| ensures after[i].status == Counted <==> LastOf(after, i) {
      if i < |imports| { LastAfterAdding(imports, added, i); }
    }
  }

  lemma SupersededThenAdded(imports: seq<Import>, nextId: nat, i: nat, added: Import)
    requires ImportsOk(imports, nextId) && added.id == nextId && added.status == Counted
    requires LastOf(imports, i) && imports[i].key == added.key
    ensures ImportsOk(imports[i := imports[i].(status := Superseded)] + [added], nextId + 1)
  {
    var marked := imports[i := imports[i].(status := Superseded)];
    var after := marked + [added];
    forall a | 0 <= a < |after| ensures after[a].status == Counted <==> LastOf(after, a) {
      if a < |imports| {
        LastAfterAdding(marked, added, a);
        SameKeysSameLast(imports, marked, a);
      }
    }
  }

  lemma SameKeysSameLast(a: seq<Import>, b: seq<Import>, i: nat)
    requires |a| == |b| && forall k :: 0 <= k < |a| ==> a[k].key == b[k].key
    ensures LastOf(a, i) <==> LastOf(b, i)
  {
  }

  // --- runs ------------------------------------------------------------------------------------------------------------

  ghost predicate Inv(ledger: Ledger) {
    ChainsOk(ledger.conversions, ledger.nextId) && ImportsOk(ledger.imports, ledger.nextId)
  }

  function Registrations(actions: seq<Action>): nat {
    if actions == [] then 0 else Registrations(actions[1..]) + if actions[0].Registered? && actions[0].ok then 1 else 0
  }

  lemma ActiveAdded(conversions: map<ConversionId, Conversion>, id: ConversionId, row: Conversion)
    requires id !in conversions && row.status == Active
    ensures ActiveRows(conversions[id := row]) == ActiveRows(conversions) + {id}
    ensures id !in ActiveRows(conversions)
  {
  }

  lemma ActiveAfterRegister(ledger: Ledger, row: Conversion)
    requires ChainsOk(ledger.conversions, ledger.nextId) && row.status == Active
    ensures |ActiveRows(Register(ledger, row).conversions)| == |ActiveRows(ledger.conversions)| + 1
  {
    assert ledger.nextId !in ledger.conversions;
    ActiveAdded(ledger.conversions, ledger.nextId, row);
  }

  lemma ActiveAfterCorrect(ledger: Ledger, id: ConversionId, at: int, credit: Decision)
    requires ChainsOk(ledger.conversions, ledger.nextId)
    ensures |ActiveRows(Correct(ledger, id, at, credit).conversions)| == |ActiveRows(ledger.conversions)|
  {
    var before := ActiveRows(ledger.conversions);
    assert ledger.nextId !in ledger.conversions;
    if id in before {
      assert ActiveRows(Correct(ledger, id, at, credit).conversions) == before - {id} + {ledger.nextId};
    }
  }

  lemma ActiveAfter(ledger: Ledger, a: Action)
    requires Inv(ledger) && Enabled(ledger, a)
    ensures |ActiveRows(Step(ledger, a).conversions)| ==
            |ActiveRows(ledger.conversions)| + if a.Registered? && a.ok then 1 else 0
  {
    match a
    case Registered(row, _) => ActiveAfterRegister(ledger, row);
    case Amended(id, at, credit, _) => ActiveAfterCorrect(ledger, id, at, credit);
    case _ =>
  }

  lemma StepKeeps(ledger: Ledger, a: Action)
    requires Inv(ledger) && Enabled(ledger, a)
    ensures Inv(Step(ledger, a))
  {
    match a
    case Registered(row, _) => RegisterChains(ledger, row);
    case Amended(id, at, credit, _) => CorrectChains(ledger, id, at, credit);
    case Imported(key, value, _, _) => ImportKeeps(ledger, key, value);
    case Restarted(next) => RestartKeeps(ledger, next);
  }

  lemma RestartKeeps(ledger: Ledger, next: nat)
    requires Inv(ledger) && Enabled(ledger, Restarted(next))
    ensures Inv(ledger.(nextId := next))
  {
    forall id | id in ledger.conversions ensures id < next && Linked(ledger.conversions, id) {
      assert Linked(ledger.conversions, id);
    }
  }

  /** However rows are corrected, there are exactly as many ACTIVE rows as registrations that were written. */
  lemma {:induction false} ActiveRowsAreRegistrations(ledger: Ledger, actions: seq<Action>)
    requires Inv(ledger) && Valid(ledger, actions)
    ensures Inv(Run(ledger, actions))
    ensures |ActiveRows(Run(ledger, actions).conversions)| == |ActiveRows(ledger.conversions)| + Registrations(actions)
    decreases |actions|
  {
    if actions != [] {
      StepKeeps(ledger, actions[0]);
      ActiveAfter(ledger, actions[0]);
      ActiveRowsAreRegistrations(Step(ledger, actions[0]), actions[1..]);
    }
  }

  /** An ACTIVE row of this kind and identity. */
  predicate Matches(conversions: map<ConversionId, Conversion>, id: ConversionId, kind: Kind, identity: Identity) {
    id in conversions && conversions[id].status == Active && conversions[id].kind == kind && conversions[id].identity == identity
  }

  /** Two ACTIVE rows of one kind and identity. */
  predicate Twins(conversions: map<ConversionId, Conversion>, a: ConversionId, b: ConversionId) {
    a != b && b in conversions && conversions[b].status == Active &&
    Matches(conversions, a, conversions[b].kind, conversions[b].identity)
  }

  ghost predicate Doubled(ledger: Ledger) {
    exists a, b :: Twins(ledger.conversions, a, b)
  }

  predicate HasActive(ledger: Ledger, kind: Kind, identity: Identity) {
    exists id :: id in ActiveRows(ledger.conversions) && Matches(ledger.conversions, id, kind, identity)
  }

  lemma TwinsRegistered(ledger: Ledger, row: Conversion, a: ConversionId, b: ConversionId)
    requires ledger.nextId !in ledger.conversions && row.status == Active
    ensures Twins(Register(ledger, row).conversions, a, b) <==>
            || Twins(ledger.conversions, a, b)
            || (a == ledger.nextId && Matches(ledger.conversions, b, row.kind, row.identity))
            || (b == ledger.nextId && Matches(ledger.conversions, a, row.kind, row.identity))
  {
  }

  /**
   * The duplicate check runs before the transaction, so a registration makes a second ACTIVE row of one kind and
   * identity exactly when another one was written in between.
   */
  lemma DoubledExactlyWhenStale(ledger: Ledger, row: Conversion)
    requires Inv(ledger) && row.status == Active && row.supersededBy.None?
    ensures Doubled(Register(ledger, row)) <==> Doubled(ledger) || HasActive(ledger, row.kind, row.identity)
  {
    var after := Register(ledger, row);
    assert ledger.nextId !in ledger.conversions;
    if a, b :| Twins(ledger.conversions, a, b) {
      TwinsRegistered(ledger, row, a, b);
    }
    if id :| id in ActiveRows(ledger.conversions) && Matches(ledger.conversions, id, row.kind, row.identity) {
      TwinsRegistered(ledger, row, id, ledger.nextId);
    }
    if a, b :| Twins(after.conversions, a, b) {
      TwinsRegistered(ledger, row, a, b);
      assert a == ledger.nextId && Matches(ledger.conversions, b, row.kind, row.identity) ==> b in ActiveRows(ledger.conversions);
      assert b == ledger.nextId && Matches(ledger.conversions, a, row.kind, row.identity) ==> a in ActiveRows(ledger.conversions);
    }
  }

  lemma TwinsCorrected(ledger: Ledger, id: ConversionId, at: int, credit: Decision, a: ConversionId, b: ConversionId)
    requires ledger.nextId !in ledger.conversions && id in ledger.conversions && ledger.conversions[id].status == Active
    requires a != ledger.nextId && b != ledger.nextId
    ensures var n := ledger.nextId;
            Twins(Correct(ledger, id, at, credit).conversions, if a == id then n else a, if b == id then n else b) <==>
            Twins(ledger.conversions, a, b)
  {
  }

  /** A correction moves an ACTIVE row and keeps its kind and identity, so it neither makes nor removes a double. */
  lemma CorrectDoubles(ledger: Ledger, id: ConversionId, at: int, credit: Decision)
    requires Inv(ledger)
    ensures Doubled(Correct(ledger, id, at, credit)) <==> Doubled(ledger)
  {
    if id in ledger.conversions && ledger.conversions[id].status == Active {
      var n := ledger.nextId;
      assert n !in ledger.conversions;
      if a, b :| Twins(ledger.conversions, a, b) {
        TwinsCorrected(ledger, id, at, credit, a, b);
      }
      if x, y :| Twins(Correct(ledger, id, at, credit).conversions, x, y) {
        assert x != id && y != id;
        TwinsCorrected(ledger, id, at, credit, if x == n then id else x, if y == n then id else y);
      }
    }
  }

  /** A written registration found an ACTIVE row of its kind and identity. */
  predicate Overlaps(ledger: Ledger, a: Action) {
    a.Registered? && a.ok && HasActive(ledger, a.row.kind, a.row.identity)
  }

  predicate SomeOverlaps(ledger: Ledger, actions: seq<Action>)
    decreases |actions|
  {
    actions != [] && (Overlaps(ledger, actions[0]) || SomeOverlaps(Step(ledger, actions[0]), actions[1..]))
  }

  lemma DoubledStep(ledger: Ledger, a: Action)
    requires Inv(ledger) && Enabled(ledger, a)
    ensures Doubled(Step(ledger, a)) <==> Doubled(ledger) || Overlaps(ledger, a)
  {
    if a.Restarted? || a.ok {
      match a
      case Registered(row, _) => DoubledExactlyWhenStale(ledger, row);
      case Amended(id, at, credit, _) => CorrectDoubles(ledger, id, at, credit);
      case _ =>
    }
  }

  /**
   * Over every run of registrations, corrections, imports, failed writes and restarts: two ACTIVE rows of one kind and
   * identity ever stand if and only if a written registration found such a row, that is, passed its check too early.
   */
  lemma {:induction false} DoubledExactly(ledger: Ledger, actions: seq<Action>)
    requires Inv(ledger) && Valid(ledger, actions)
    ensures Doubled(Run(ledger, actions)) <==> Doubled(ledger) || SomeOverlaps(ledger, actions)
    decreases |actions|
  {
    if actions != [] {
      StepKeeps(ledger, actions[0]);
      DoubledStep(ledger, actions[0]);
      DoubledExactly(Step(ledger, actions[0]), actions[1..]);
    }
  }

  /** From an empty ledger: two registrations that were both checked before either was written. */
  lemma DoubleRegistration(kind: Kind, identity: Identity, at: int, credit: Decision)
    ensures var twice := [Registered(Fresh(kind, identity, at, credit), true), Registered(Fresh(kind, identity, at, credit), true)];
            Valid(Empty(), twice) && Doubled(Run(Empty(), twice))
  {
    var a := Registered(Fresh(kind, identity, at, credit), true);
    var ledger := Step(Empty(), a);
    assert 0 in ActiveRows(ledger.conversions) && ledger.conversions[0] == a.row;
    assert Overlaps(ledger, a);
    assert [a, a][1..] == [a];
    assert SomeOverlaps(ledger, [a]) && SomeOverlaps(Empty(), [a, a]);
    DoubledExactly(Empty(), [a, a]);
  }

  // --- numbers replaced ------------------------------------------------------------------------------------------------

  function SupersededOf(imports: seq<Import>, key: DedupKey): set<ImportId> {
    set i | 0 <= i < |imports| && imports[i].key == key && imports[i].status == Superseded :: imports[i].id
  }

  lemma SupersededAppend(imports: seq<Import>, added: Import, key: DedupKey)
    requires added.status == Counted
    ensures SupersededOf(imports + [added], key) == SupersededOf(imports, key)
  {
    var after := imports + [added];
    forall i | 0 <= i < |imports| ensures after[i] == imports[i] {
    }
  }

  lemma SupersededMark(imports: seq<Import>, i: nat, key: DedupKey)
    requires i < |imports| && imports[i].status == Counted
    requires forall a, b :: 0 <= a < b < |imports| ==> imports[a].id != imports[b].id
    ensures var marked := imports[i := imports[i].(status := Superseded)];
            SupersededOf(marked, key) == SupersededOf(imports, key) + if imports[i].key == key then {imports[i].id} else {}
    ensures imports[i].id !in SupersededOf(imports, key)
  {
    var marked := imports[i := imports[i].(status := Superseded)];
    assert marked[i].id == imports[i].id && forall k :: 0 <= k < |imports| && k != i ==> marked[k] == imports[k];
    forall id | id in SupersededOf(imports, key) ensures id in SupersededOf(marked, key) {
      var k :| 0 <= k < |imports| && imports[k].key == key && imports[k].status == Superseded && imports[k].id == id;
      assert marked[k] == imports[k];
    }
  }

  /** A written import supersedes the row the index points at, and no other. */
  lemma SupersededAfter(ledger: Ledger, a: Action, key: DedupKey)
    requires Inv(ledger) && Enabled(ledger, a)
    ensures |SupersededOf(Step(ledger, a).imports, key)| ==
            |SupersededOf(ledger.imports, key)| + if Replaces(ledger, a, key) then 1 else 0
  {
    if a.Imported? && a.ok {
      var imports, added := ledger.imports, Import(ledger.nextId, a.key, a.value, Counted);
      ImportKeysAt(imports, a.key);
      if a.key in ImportKeys(imports) {
        var i :| LastOf(imports, i) && imports[i].key == a.key && imports[i].id == ImportKeys(imports)[a.key];
        var marked := imports[i].(status := Superseded);
        FindByIdAt(imports, i);
        SaveInPlace(imports, i, marked);
        SaveAtEnd(imports[i := marked], added);
        SupersededMark(imports, i, key);
        SupersededAppend(imports[i := marked], added, key);
      } else {
        SaveAtEnd(imports, added);
        SupersededAppend(imports, added, key);
      }
    }
  }

  /** A written import that finds a counted number of its key. */
  predicate Replaces(ledger: Ledger, a: Action, key: DedupKey) {
    a.Imported? && a.ok && a.key == key && key in ImportKeys(ledger.imports)
  }

  /** How many numbers of the key a run replaces, asked to or not. */
  function Replaced(ledger: Ledger, actions: seq<Action>, key: DedupKey, asked: bool): nat
    decreases |actions|
  {
    if actions == [] then 0
    else
      (if Replaces(ledger, actions[0], key) && actions[0].replace == asked then 1 else 0) +
      Replaced(Step(ledger, actions[0]), actions[1..], key, asked)
  }

  lemma {:induction false} ReplacedAll(ledger: Ledger, actions: seq<Action>, key: DedupKey)
    requires Inv(ledger) && Valid(ledger, actions)
    ensures |SupersededOf(Run(ledger, actions).imports, key)| ==
            |SupersededOf(ledger.imports, key)| + Replaced(ledger, actions, key, true) + Replaced(ledger, actions, key, false)
    decreases |actions|
  {
    if actions != [] {
      StepKeeps(ledger, actions[0]);
      SupersededAfter(ledger, actions[0], key);
      ReplacedAll(Step(ledger, actions[0]), actions[1..], key);
    }
  }

  /** An import that was not to replace anything has found a number all the same: another one was written after its check. */
  predicate SomeSilent(ledger: Ledger, actions: seq<Action>, key: DedupKey)
    decreases |actions|
  {
    actions != [] &&
    ((Replaces(ledger, actions[0], key) && !actions[0].replace) || SomeSilent(Step(ledger, actions[0]), actions[1..], key))
  }

  lemma {:induction false} SilentCounted(ledger: Ledger, actions: seq<Action>, key: DedupKey)
    ensures Replaced(ledger, actions, key, false) > 0 <==> SomeSilent(ledger, actions, key)
    decreases |actions|
  {
    if actions != [] {
      SilentCounted(Step(ledger, actions[0]), actions[1..], key);
    }
  }

  /** Over every run: as many numbers of a key are superseded as were to be replaced, unless an import found one unasked. */
  lemma ReplacedExactly(ledger: Ledger, actions: seq<Action>, key: DedupKey)
    requires Inv(ledger) && Valid(ledger, actions)
    ensures var before, after := |SupersededOf(ledger.imports, key)|, |SupersededOf(Run(ledger, actions).imports, key)|;
            (after == before + Replaced(ledger, actions, key, true)) <==> !SomeSilent(ledger, actions, key)
  {
    ReplacedAll(ledger, actions, key);
    SilentCounted(ledger, actions, key);
  }

  /** From an empty ledger: two imports of one key, neither to replace anything, both checked before either was written. */
  lemma SilentReplacement(key: DedupKey, first: nat, second: nat)
    ensures var twice := [Imported(key, first, false, true), Imported(key, second, false, true)];
            Valid(Empty(), twice) && SomeSilent(Empty(), twice, key)
  {
    var a, b := Imported(key, first, false, true), Imported(key, second, false, true);
    var ledger := Step(Empty(), a);
    assert ledger.imports == [Import(0, key, first, Counted)];
    assert key in ImportKeys(ledger.imports);
    assert [a, b][1..] == [b];
  }
}
