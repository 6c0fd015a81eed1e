/** The movement part of the channel policy, and the two halves of a publication round of the engine as runs of the machine. */
module MovementService {
  import opened Common
  import opened MovementPolicy

  lemma {:induction false} Extend(c: Config, s: State, actions: seq<Action>, a: Action)
    requires Valid(c, s, actions) && Enabled(c, Run(c, s, actions), a)
    ensures Valid(c, s, actions + [a])
    ensures Run(c, s, actions + [a]) == Step(c, Run(c, s, actions), a)
    decreases |actions|
  {
    if actions == [] {
      assert (actions + [a])[1..] == [];
      assert Valid(c, Step(c, s, a), []) && Run(c, Step(c, s, a), []) == Step(c, s, a);
    } else {
      Extend(c, Step(c, s, actions[0]), actions[1..], a);
      assert (actions + [a])[1..] == actions[1..] + [a];
    }
  }

  /** A candidate comes from a moving row whose event state allows it. */
  ghost predicate From(c: Config, events: map<Slot, Event>, rows: seq<Row>, now: int, x: Candidate, i: nat) {
    && i < |rows| && rows[i].symbol == x.symbol && Moves(c, rows[i]) && Ready(c, events, x.symbol, now)
    && rows[i].percent == Some(x.percent)
  }

  ghost predicate Sourced(c: Config, events: map<Slot, Event>, rows: seq<Row>, now: int, x: Candidate) {
    exists i: nat :: From(c, events, rows, now, x, i)
  }

  lemma FromLonger(c: Config, events: map<Slot, Event>, rows: seq<Row>, now: int, x: Candidate, n: nat)
    requires n <= |rows| && Sourced(c, events, rows[..n], now, x)
    ensures Sourced(c, events, rows, now, x)
    ensures exists i: nat :: i < n && rows[i].symbol == x.symbol
  {
    var i: nat :| From(c, events, rows[..n], now, x, i);
    assert From(c, events, rows, now, x, i);
  }

  ghost predicate AllSourced(c: Config, events: map<Slot, Event>, rows: seq<Row>, now: int, found: seq<Candidate>) {
    && (forall n :: 0 <= n < |found| ==> Sourced(c, events, rows, now, found[n]))
    && forall n, m :: 0 <= n < m < |found| ==> found[n].symbol != found[m].symbol
  }

  /** Every candidate is a moving row whose event state allows it, and no symbol is a candidate twice. */
  lemma {:induction false} CandidatesSourced(c: Config, events: map<Slot, Event>, rows: seq<Row>, now: int)
    requires DistinctSymbols(rows)
    ensures AllSourced(c, events, rows, now, CandidatesOf(c, events, rows, now))
    decreases |rows|
  {
    if rows != [] {
      var last := |rows| - 1;
      var before, found := CandidatesOf(c, events, rows[..last], now), CandidatesOf(c, events, rows, now);
      CandidatesSourced(c, events, rows[..last], now);
      forall n | 0 <= n < |before| ensures Sourced(c, events, rows, now, before[n]) && before[n].symbol != rows[last].symbol {
        FromLonger(c, events, rows, now, before[n], last);
      }
      if |found| > |before| {
        assert From(c, events, rows, now, found[|before|], last);
      }
    }
  }

  /** Every moving row whose event state allows it is a candidate. */
  lemma {:induction false} CandidatesComplete(c: Config, events: map<Slot, Event>, rows: seq<Row>, now: int, i: nat)
    requires i < |rows| && Moves(c, rows[i]) && Ready(c, events, rows[i].symbol, now)
    ensures Candidate(rows[i].symbol, rows[i].percent.value, ThresholdFor(c, rows[i].symbol).value)
            in CandidatesOf(c, events, rows, now)
    decreases |rows|
  {
    if i < |rows| - 1 {
      CandidatesComplete(c, events, rows[..|rows| - 1], now, i);
    }
  }

  /** A fresh row that rises or falls by at least the threshold, off cooldown and armed again, as this candidate. */
  ghost predicate Qualifies(c: Config, events: map<Slot, Event>, row: Row, now: int, x: Candidate) {
    && row.available && row.symbol == x.symbol && row.percent == Some(x.percent)
    && (row.trend == Rising || row.trend == Falling) && row.movement.Some? && row.movement.value != 0.0
    && ThresholdFor(c, row.symbol) == Some(x.threshold) && (x.percent >= x.threshold || x.percent <= -x.threshold)
    && var slot := Slot(x.symbol, c.day(now));
       slot in events ==> events[slot].armed && now >= events[slot].lastAt + c.cooldown
  }

  lemma {:induction false} CandidatesExactly(c: Config, events: map<Slot, Event>, rows: seq<Row>, now: int, x: Candidate)
    ensures x in CandidatesOf(c, events, rows, now) <==>
            exists i :: 0 <= i < |rows| && Qualifies(c, events, rows[i], now, x)
    decreases |rows|
  {
    if rows != [] {
      var last := |rows| - 1;
      CandidatesExactly(c, events, rows[..last], now, x);
      if i :| 0 <= i < |rows| && Qualifies(c, events, rows[i], now, x) {
        assert i < last ==> rows[..last][i] == rows[i];
      }
      if i :| 0 <= i < last && Qualifies(c, events, rows[..last][i], now, x) {
        assert rows[i] == rows[..last][i];
      }
      LastQualifies(c, events, rows[last], now, x);
    }
  }

  lemma LastQualifies(c: Config, events: map<Slot, Event>, row: Row, now: int, x: Candidate)
    ensures Qualifies(c, events, row, now, x) <==>
            && Moves(c, row) && Ready(c, events, row.symbol, now)
            && x == Candidate(row.symbol, row.percent.value, ThresholdFor(c, row.symbol).value)
  {
  }

  function PercentOf(row: Row): real {
    if row.percent.None? then 0.0 else row.percent.value
  }

  /** What a round remembers of the rows it read. */
  function SnapshotOf(rows: seq<Row>): map<Symbol, real> {
    if rows == [] then map[]
    else
      var last := rows[|rows| - 1];
      SnapshotOf(rows[..|rows| - 1])[last.symbol := PercentOf(last)]
  }

  lemma {:induction false} SnapshotHas(rows: seq<Row>, i: nat)
    requires DistinctSymbols(rows) && i < |rows|
    ensures rows[i].symbol in SnapshotOf(rows) && SnapshotOf(rows)[rows[i].symbol] == PercentOf(rows[i])
    decreases |rows|
  {
    if i < |rows| - 1 {
      SnapshotHas(rows[..|rows| - 1], i);
    }
  }

  function PicksOf(candidates: seq<Candidate>): set<Symbol> {
    set x | x in candidates :: x.symbol
  }

  lemma PicksLeft(candidates: seq<Candidate>, n: nat)
    requires n < |candidates|
    requires forall i, k :: 0 <= i < k < |candidates| ==> candidates[i].symbol != candidates[k].symbol
    ensures candidates[n].symbol in PicksOf(candidates[n..])
    ensures PicksOf(candidates[n..]) - {candidates[n].symbol} == PicksOf(candidates[n + 1..])
  {
    assert candidates[n..] == [candidates[n]] + candidates[n + 1..];
    assert candidates[n] in candidates[n..];
  }

  /** The candidates are moving rows of the snapshot, no symbol twice. */
  ghost predicate Picked(c: Config, rows: seq<Row>, candidates: seq<Candidate>) {
    && DistinctSymbols(rows)
    && (forall n :: 0 <= n < |candidates| ==> Mover(c, rows, candidates[n]))
    && forall n, m :: 0 <= n < m < |candidates| ==> candidates[n].symbol != candidates[m].symbol
  }

  ghost predicate Mover(c: Config, rows: seq<Row>, x: Candidate) {
    exists i :: 0 <= i < |rows| && rows[i].symbol == x.symbol && Moves(c, rows[i]) && rows[i].percent == Some(x.percent)
  }

  lemma MoverIsNotCalm(c: Config, rows: seq<Row>, x: Candidate)
    requires DistinctSymbols(rows) && Mover(c, rows, x)
    ensures forall i :: 0 <= i < |rows| && rows[i].symbol == x.symbol ==> !Calm(c, rows[i])
    ensures x.symbol in SnapshotOf(rows) && Big(c, x.symbol, SnapshotOf(rows)[x.symbol])
  {
    var k :| 0 <= k < |rows| && rows[k].symbol == x.symbol && Moves(c, rows[k]) && rows[k].percent == Some(x.percent);
    SnapshotHas(rows, k);
  }

  function ReArmOne(c: Config, events: map<Slot, Event>, row: Row, now: int): map<Slot, Event> {
    var slot := Slot(row.symbol, c.day(now));
    if slot in events && !events[slot].armed && Calm(c, row) then events[slot := events[slot].(armed := true)] else events
  }

  function ReArmAll(c: Config, events: map<Slot, Event>, rows: seq<Row>, now: int): map<Slot, Event> {
    if rows == [] then events
    else ReArmOne(c, ReArmAll(c, events, rows[..|rows| - 1], now), rows[|rows| - 1], now)
  }

  /** Of one day exactly the calm symbols of the snapshot are re-armed; every other slot is left alone. */
  lemma {:induction false} ReArmsExactlyCalm(c: Config, events: map<Slot, Event>, rows: seq<Row>, now: int, slot: Slot)
    requires slot in events
    ensures slot in ReArmAll(c, events, rows, now)
    ensures ReArmAll(c, events, rows, now)[slot] == events[slot].(armed := events[slot].armed ||
              exists i :: 0 <= i < |rows| && Slot(rows[i].symbol, c.day(now)) == slot && Calm(c, rows[i]))
    decreases |rows|
  {
    if rows != [] {
      var last := |rows| - 1;
      ReArmsExactlyCalm(c, events, rows[..last], now, slot);
      if i :| 0 <= i < |rows| && Slot(rows[i].symbol, c.day(now)) == slot && Calm(c, rows[i]) {
        assert i < last ==> rows[..last][i] == rows[i];
      }
      if i :| 0 <= i < last && Slot(rows[..last][i].symbol, c.day(now)) == slot && Calm(c, rows[..last][i]) {
        assert rows[i] == rows[..last][i];
      }
    }
  }

  /** Half the threshold is not reached, and a symbol without a percentage has not moved. */
  predicate StaysLow(c: Config, row: Row) {
    var threshold := ThresholdFor(c, row.symbol);
    c.threshold > 0.0 && threshold.Some? && match row.percent
                                            case None => true
                                            case Some(p) => -threshold.value < 2.0 * p < threshold.value
  }

  lemma ReArmsQuiet(c: Config, events: map<Slot, Event>, rows: seq<Row>, now: int)
    ensures var after := if MovementsEnabled(c) then ReArmAll(c, events, rows, now) else events;
            && after.Keys == events.Keys
            && forall slot :: slot in events ==>
                 after[slot] == events[slot].(armed := events[slot].armed ||
                   exists i :: 0 <= i < |rows| && Slot(rows[i].symbol, c.day(now)) == slot && StaysLow(c, rows[i]))
  {
    ReArmKeys(c, events, rows, now);
    forall i | 0 <= i < |rows| ensures StaysLow(c, rows[i]) <==> MovementsEnabled(c) && Calm(c, rows[i]) {
    }
    forall slot | slot in events ensures slot in ReArmAll(c, events, rows, now) {
      ReArmsExactlyCalm(c, events, rows, now, slot);
    }
    if MovementsEnabled(c) {
      forall slot | slot in events
        ensures ReArmAll(c, events, rows, now)[slot] == events[slot].(armed := events[slot].armed ||
                  exists i :: 0 <= i < |rows| && Slot(rows[i].symbol, c.day(now)) == slot && StaysLow(c, rows[i]))
      {
        ReArmsExactlyCalm(c, events, rows, now, slot);
      }
    }
  }

  lemma {:induction false} ReArmKeys(c: Config, events: map<Slot, Event>, rows: seq<Row>, now: int)
    ensures ReArmAll(c, events, rows, now).Keys == events.Keys
    decreases |rows|
  {
    if rows != [] {
      ReArmKeys(c, events, rows[..|rows| - 1], now);
    }
  }

  function RecordedAll(c: Config, events: map<Slot, Event>, candidates: seq<Candidate>, now: int): map<Slot, Event> {
    if candidates == [] then events
    else
      var last := |candidates| - 1;
      RecordedAll(c, events, candidates[..last], now)[Slot(candidates[last].symbol, c.day(now)) := Event(now, false)]
  }

  /** The class is where the run of `actions` from `s` ends, and round `r` has `picks` still to record. */
  ghost predicate Reached(c: Config, s: State, actions: seq<Action>, events: map<Slot, Event>, file: map<Slot, Event>,
                          r: nat, rows: seq<Row>, now: int, picks: set<Symbol>) {
    Valid(c, s, actions) &&
    var t := Run(c, s, actions);
    t.mem == events && t.disk == file && r in t.rounds && t.rounds[r] == Round(now, SnapshotOf(rows), picks)
  }

  lemma RecordReached(c: Config, s: State, actions: seq<Action>, events: map<Slot, Event>, file: map<Slot, Event>,
                      r: nat, rows: seq<Row>, now: int, picks: set<Symbol>, x: Symbol, ok: bool)
    requires Reached(c, s, actions, events, file, r, rows, now, picks) && x in picks && x in SnapshotOf(rows)
    ensures var after := events[Slot(x, c.day(now)) := Event(now, false)];
            Reached(c, s, actions + [Record(r, x, ok)], after, if ok then after else file, r, rows, now, picks - {x})
  {
    Extend(c, s, actions, Record(r, x, ok));
  }

  /** `events` is what the process knows, `file` what the document holds; a failed write is swallowed. */
  class ChannelPolicy {
    const config: Config
    var events: map<Slot, Event>
    var file: map<Slot, Event>

    constructor (config: Config)
      ensures this.config == config && events == map[] && file == map[]
    {
      this.config, events, file := config, map[], map[];
    }

    method Persist(ok: bool)
      modifies this`file
      ensures file == if ok then events else old(file)
    {
      if ok { file := events; }
    }

    method SelectMovementCandidates(rows: seq<Row>, now: int) returns (candidates: seq<Candidate>)
      ensures candidates == if MovementsEnabled(config) then CandidatesOf(config, events, rows, now) else []
      ensures forall x :: x in candidates <==>
                config.threshold > 0.0 && exists i :: 0 <= i < |rows| && Qualifies(config, events, rows[i], now, x)
    {
      forall x ensures x in CandidatesOf(config, events, rows, now) <==>
                       exists i :: 0 <= i < |rows| && Qualifies(config, events, rows[i], now, x)
      {
        CandidatesExactly(config, events, rows, now, x);
      }
      candidates := [];
      if config.threshold <= 0.0 { return; }
      for i := 0 to |rows|
        invariant candidates == CandidatesOf(config, events, rows[..i], now)
      {
        assert rows[..i + 1][..i] == rows[..i];
        var row := rows[i];
        var threshold := ThresholdFor(config, row.symbol);
        if !row.available || threshold.None? { continue; }
        if row.movement.None? || row.percent.None? || row.trend == UnknownTrend || row.trend == Unchanged { continue; }
        if row.movement.value == 0.0 || Magnitude(row.percent.value) < threshold.value { continue; }
        var slot := Slot(row.symbol, config.day(now));
        if slot in events && (now - events[slot].lastAt < config.cooldown || !events[slot].armed) { continue; }
        candidates := candidates + [Candidate(row.symbol, row.percent.value, threshold.value)];
      }
      assert rows[..|rows|] == rows;
    }

    method RecordMovementEvent(symbol: Symbol, now: int, ok: bool)
      modifies this
      ensures events == old(events)[Slot(symbol, config.day(now)) := Event(now, false)]
      ensures file == if ok then events else old(file)
    {
      events := events[Slot(symbol, config.day(now)) := Event(now, false)];
      Persist(ok);
    }

    /** One transaction, written only when it changed something; `actions` grows by the re-arms of this snapshot. */
    method UpdateMovementReArm(rows: seq<Row>, now: int, ok: bool, ghost s: State, ghost past: seq<Action>, ghost r: nat)
        returns (ghost actions: seq<Action>)
      requires DistinctSymbols(rows) && Reached(config, s, past, events, file, r, rows, now, {})
      modifies this
      ensures Reached(config, s, actions, events, file, r, rows, now, {})
      ensures events == if MovementsEnabled(config) then ReArmAll(config, old(events), rows, now) else old(events)
      ensures file == if ok && events != old(events) then events else old(file)
      ensures events.Keys == old(events).Keys && forall slot :: slot in events ==>
                events[slot] == old(events)[slot].(armed := old(events)[slot].armed ||
                  exists i :: 0 <= i < |rows| && Slot(rows[i].symbol, config.day(now)) == slot && StaysLow(config, rows[i]))
    {
      ReArmsQuiet(config, events, rows, now);
      actions := past;
      if config.threshold <= 0.0 { return; }
      var before := events;
      for i := 0 to |rows|
        invariant Reached(config, s, actions, events, file, r, rows, now, {}) && file == old(file)
        invariant events == ReArmAll(config, old(events), rows[..i], now)
      {
        assert rows[..i + 1][..i] == rows[..i];
        var row := rows[i];
        var slot := Slot(row.symbol, config.day(now));
        if slot in events && !events[slot].armed && Calm(config, row) {
          SnapshotHas(rows, i);
          Extend(config, s, actions, ReArm(r, row.symbol, false));
          actions := actions + [ReArm(r, row.symbol, false)];
          events := events[slot := events[slot].(armed := true)];
        }
      }
      assert rows[..|rows|] == rows;
      if ok && events != before {
        Extend(config, s, actions, OtherWrite);
        actions := actions + [OtherWrite];
        Persist(true);
      }
    }

    /** Old days are armed again; nothing is published for them any more. */
    method PrunePreviousDays(now: int)
      modifies this`events
      ensures events.Keys == old(events).Keys
      ensures forall slot :: slot in events ==>
                events[slot] == if slot.day != config.day(now) then old(events)[slot].(armed := true) else old(events)[slot]
    {
      var rest := events.Keys;
      while rest != {}
        invariant rest <= events.Keys && events.Keys == old(events).Keys
        invariant forall slot :: slot in events ==>
                    events[slot] == if slot !in rest && slot.day != config.day(now) then old(events)[slot].(armed := true)
                                    else old(events)[slot]
        decreases |rest|
      {
        var slot :| slot in rest;
        rest := rest - {slot};
        if slot.day != config.day(now) {
          events := events[slot := events[slot].(armed := true)];
        }
      }
    }

    method RecordAll(candidates: seq<Candidate>, rows: seq<Row>, now: int, writes: nat -> bool, ghost s: State, ghost r: nat)
        returns (ghost actions: seq<Action>)
      requires Picked(config, rows, candidates) && Reached(config, s, [], events, file, r, rows, now, PicksOf(candidates))
      modifies this
      ensures Reached(config, s, actions, events, file, r, rows, now, {})
      ensures events == RecordedAll(config, old(events), candidates, now)
      ensures forall n :: 0 <= n < |candidates| ==> JustPublished(candidates[n], now)
    {
      actions := [];
      for n := 0 to |candidates|
        invariant Reached(config, s, actions, events, file, r, rows, now, PicksOf(candidates[n..]))
        invariant events == RecordedAll(config, old(events), candidates[..n], now)
        invariant forall m :: 0 <= m < n ==> JustPublished(candidates[m], now)
      {
        var x := candidates[n];
        assert candidates[..n + 1][..n] == candidates[..n];
        MoverIsNotCalm(config, rows, x);
        PicksLeft(candidates, n);
        RecordReached(config, s, actions, events, file, r, rows, now, PicksOf(candidates[n..]), x.symbol, writes(n));
        actions := actions + [Record(r, x.symbol, writes(n))];
        RecordMovementEvent(x.symbol, now, writes(n));
      }
      assert candidates[..|candidates|] == candidates;
    }

    predicate JustPublished(x: Candidate, now: int)
      reads this
    {
      Slot(x.symbol, config.day(now)) in events && events[Slot(x.symbol, config.day(now))] == Event(now, false)
    }

    /** A round up to the publication: it ends here when nothing qualifies, and is a selection of the machine otherwise. */
    method BeginRound(rows: seq<Row>, now: int, ghost s: State) returns (candidates: seq<Candidate>)
      requires DistinctSymbols(rows) && s.mem == events && s.boot <= now
      ensures candidates == if MovementsEnabled(config) then CandidatesOf(config, events, rows, now) else []
      ensures Picked(config, rows, candidates)
      ensures candidates != [] ==> Enabled(config, s, Select(now, SnapshotOf(rows), PicksOf(candidates)))
    {
      candidates := SelectMovementCandidates(rows, now);
      CandidatesSourced(config, events, rows, now);
      forall n | 0 <= n < |candidates|
        ensures Mover(config, rows, candidates[n]) && Ready(config, events, candidates[n].symbol, now)
      {
        assert Sourced(config, events, rows, now, candidates[n]);
      }
      forall x | x in candidates ensures Mover(config, rows, x) && Ready(config, events, x.symbol, now) {
      }
      forall x | x in candidates ensures x.symbol in SnapshotOf(rows) && Big(config, x.symbol, SnapshotOf(rows)[x.symbol]) {
        MoverIsNotCalm(config, rows, x);
      }
      if candidates != [] {
        assert candidates[0].symbol in PicksOf(candidates);
      }
    }

    /**
     * The round after its publication, whatever has happened in between: what was published is recorded, one write
     * each, and the snapshot of the beginning re-arms, but never what it has just published. `published` is the outcome
     * of the publication job, `writes` and `ok` whether the writes succeed. This is a run of the machine.
     */
    method EndRound(candidates: seq<Candidate>, rows: seq<Row>, now: int, published: bool, writes: nat -> bool, ok: bool,
                    ghost s: State, ghost r: nat)
        returns (ghost actions: seq<Action>)
      requires MovementsEnabled(config) && Picked(config, rows, candidates)
      requires Reached(config, s, [], events, file, r, rows, now, PicksOf(candidates))
      modifies this
      ensures events == ReArmAll(config, if published then RecordedAll(config, old(events), candidates, now) else old(events),
                                 rows, now)
      ensures published ==> forall n :: 0 <= n < |candidates| ==> JustPublished(candidates[n], now)
      ensures Valid(config, s, actions) && r !in Run(config, s, actions).rounds
      ensures Run(config, s, actions).mem == events && Run(config, s, actions).disk == file
    {
      if published {
        actions := RecordAll(candidates, rows, now, writes, s, r);
      } else {
        Extend(config, s, [], Refused(r));
        actions := [] + [Refused(r)];
      }
      ghost var recorded := events;
      actions := UpdateMovementReArm(rows, now, ok, s, actions, r);
      if published {
        forall n | 0 <= n < |candidates| ensures JustPublished(candidates[n], now) {
          ReArmsExactlyCalm(config, recorded, rows, now, Slot(candidates[n].symbol, config.day(now)));
          MoverIsNotCalm(config, rows, candidates[n]);
        }
      }
      Extend(config, s, actions, Finish(r));
      actions := actions + [Finish(r)];
    }
  }
}
