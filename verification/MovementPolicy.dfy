/**
 * Movement messages: selection, recording and re-arming of movement events. Percentages are reals, times integers,
 * and `day` is the Tehran calendar as a non-decreasing function of time.
 */
module MovementPolicy {
  import opened Common

  type Symbol = string
  type Day = int

  datatype Trend = Rising | Falling | Unchanged | UnknownTrend
  datatype Row = Row(symbol: Symbol, available: bool, movement: Option<real>, percent: Option<real>, trend: Trend)
  datatype Candidate = Candidate(symbol: Symbol, percent: real, threshold: real)

  /** One symbol on one day. */
  datatype Slot = Slot(symbol: Symbol, day: Day)
  datatype Event = Event(lastAt: int, armed: bool)

  datatype Config = Config(threshold: real, overrides: map<Symbol, real>, cooldown: nat, day: int -> Day)

  function Magnitude(percent: real): real {
    if percent < 0.0 then -percent else percent
  }

  predicate MovementsEnabled(c: Config) {
    c.threshold > 0.0
  }

  /** No threshold means no messages, never unrestricted ones. */
  function ThresholdFor(c: Config, symbol: Symbol): (threshold: Option<real>)
    ensures threshold.Some? ==> threshold.value > 0.0
    ensures symbol in c.overrides ==>
              if c.overrides[symbol] > 0.0 then threshold.Some? && threshold.value == c.overrides[symbol] else threshold.None?
    ensures symbol !in c.overrides ==>
              if MovementsEnabled(c) then threshold.Some? && threshold.value == c.threshold else threshold.None?
  {
    if symbol in c.overrides then (if c.overrides[symbol] > 0.0 then Some(c.overrides[symbol]) else None)
    else if c.threshold > 0.0 then Some(c.threshold) else None
  }

  /** The event state allows another message: nothing was published, or the cooldown is over and it was re-armed. */
  predicate Ready(c: Config, events: map<Slot, Event>, symbol: Symbol, now: int) {
    var slot := Slot(symbol, c.day(now));
    slot in events ==> now - events[slot].lastAt >= c.cooldown && events[slot].armed
  }

  predicate Moves(c: Config, row: Row) {
    && row.available && ThresholdFor(c, row.symbol).Some?
    && row.movement.Some? && row.percent.Some? && row.movement.value != 0.0
    && row.trend != UnknownTrend && row.trend != Unchanged
    && Magnitude(row.percent.value) >= ThresholdFor(c, row.symbol).value
  }

  function CandidatesOf(c: Config, events: map<Slot, Event>, rows: seq<Row>, now: int): seq<Candidate> {
    if rows == [] then []
    else
      var last := rows[|rows| - 1];
      CandidatesOf(c, events, rows[..|rows| - 1], now) +
      if Moves(c, last) && Ready(c, events, last.symbol, now)
      then [Candidate(last.symbol, last.percent.value, ThresholdFor(c, last.symbol).value)] else []
  }

  /** A symbol without a percentage counts as not moving. */
  predicate Calm(c: Config, row: Row) {
    && ThresholdFor(c, row.symbol).Some?
    && (if row.percent.None? then 0.0 else Magnitude(row.percent.value)) < ThresholdFor(c, row.symbol).value * 0.5
  }

  ghost predicate DistinctSymbols(rows: seq<Row>) {
    forall i, k :: 0 <= i < k < |rows| ==> rows[i].symbol != rows[k].symbol
  }

  // --- runs ------------------------------------------------------------------------------------------------------------

  /** What happened to a slot: a recorded message, or a re-arm and the magnitude it saw. */
  datatype Entry = Recorded(slot: Slot, at: int, magnitude: real) | ReArmed(slot: Slot, magnitude: real)

  /**
   * A publication round in flight: the time and the percentages it read when it selected, a missing one being zero,
   * and the selected symbols it has still to record.
   */
  datatype Round = Round(now: int, snapshot: map<Symbol, real>, picks: set<Symbol>)

  /**
   * `mem` and `disk` are the event states in memory and in the file, `log` is what has happened. `boot` is when the
   * process started and `clock` the latest time a round has read.
   */
  datatype State = State(mem: map<Slot, Event>, disk: map<Slot, Event>, rounds: map<nat, Round>, nextRound: nat,
                         boot: int, clock: int, log: seq<Entry>)

  /**
   * A round selects, publishes for as long as that takes, records what was published and re-arms by what it read at
   * the start. Nothing keeps rounds apart, not even in the order of the times they read (when the prices came in), and
   * neither a record nor a re-arm looks at the clock or at the state that the selection saw. `ok` is whether the write
   * succeeds; `OtherWrite` is any other successful write of the document.
   */
  datatype Action =
    | Select(now: int, snapshot: map<Symbol, real>, picks: set<Symbol>)
    | Refused(round: nat)
    | Record(round: nat, symbol: Symbol, ok: bool)
    | ReArm(round: nat, symbol: Symbol, ok: bool)
    | Finish(round: nat)
    | OtherWrite
    | Restart

  function SlotOf(c: Config, round: Round, symbol: Symbol): Slot {
    Slot(symbol, c.day(round.now))
  }

  predicate Big(c: Config, symbol: Symbol, percent: real) {
    ThresholdFor(c, symbol).Some? && Magnitude(percent) >= ThresholdFor(c, symbol).value
  }

  predicate Small(c: Config, symbol: Symbol, percent: real) {
    ThresholdFor(c, symbol).Some? && Magnitude(percent) < ThresholdFor(c, symbol).value * 0.5
  }

  /** A round without a candidate ends before it re-arms. */
  predicate Enabled(c: Config, s: State, a: Action) {
    match a
    case Select(now, snapshot, picks) =>
      && MovementsEnabled(c) && s.boot <= now && picks != {}
      && forall x :: x in picks ==> x in snapshot && Big(c, x, snapshot[x]) && Ready(c, s.mem, x, now)
    case Refused(r) => r in s.rounds
    case Record(r, x, _) => r in s.rounds && x in s.rounds[r].picks && x in s.rounds[r].snapshot
    case ReArm(r, x, _) =>
      && r in s.rounds && s.rounds[r].picks == {} && x in s.rounds[r].snapshot && Small(c, x, s.rounds[r].snapshot[x])
      && SlotOf(c, s.rounds[r], x) in s.mem && !s.mem[SlotOf(c, s.rounds[r], x)].armed
    case Finish(r) => r in s.rounds && s.rounds[r].picks == {}
    case OtherWrite => true
    case Restart => true
  }

  function Stored(s: State, mem: map<Slot, Event>, ok: bool, e: Entry): State {
    s.(mem := mem, disk := if ok then mem else s.disk, log := s.log + [e])
  }

  function Step(c: Config, s: State, a: Action): State
    requires Enabled(c, s, a)
  {
    match a
    case Select(now, snapshot, picks) =>
      s.(rounds := s.rounds[s.nextRound := Round(now, snapshot, picks)], nextRound := s.nextRound + 1,
         clock := if s.clock < now then now else s.clock)
    case Refused(r) => s.(rounds := s.rounds[r := s.rounds[r].(picks := {})])
    case Record(r, x, ok) =>
      var round := s.rounds[r];
      var slot := SlotOf(c, round, x);
      Stored(s, s.mem[slot := Event(round.now, false)], ok, Recorded(slot, round.now, Magnitude(round.snapshot[x])))
      .(rounds := s.rounds[r := round.(picks := round.picks - {x})])
    case ReArm(r, x, ok) =>
      var slot := SlotOf(c, s.rounds[r], x);
      Stored(s, s.mem[slot := s.mem[slot].(armed := true)], ok, ReArmed(slot, Magnitude(s.rounds[r].snapshot[x])))
    case Finish(r) => s.(rounds := s.rounds - {r})
    case OtherWrite => s.(disk := s.mem)
    case Restart => s.(mem := s.disk, rounds := map[], boot := s.clock)
  }

  predicate Valid(c: Config, s: State, actions: seq<Action>)
    decreases |actions|
  {
    actions == [] || (Enabled(c, s, actions[0]) && Valid(c, Step(c, s, actions[0]), actions[1..]))
  }

  function Run(c: Config, s: State, actions: seq<Action>): State
    requires Valid(c, s, actions)
    decreases |actions|
  {
    if actions == [] then s else Run(c, Step(c, s, actions[0]), actions[1..])
  }

  function Start(): State {
    State(map[], map[], map[], 0, 0, 0, [])
  }

  // --- what a record must find, and what a restart may lose --------------------------------------------------------------

  /** The slot would still be selected at the time of the round. */
  predicate StillReady(c: Config, s: State, a: Action) {
    a.Record? && a.round in s.rounds ==> Ready(c, s.mem, a.symbol, s.rounds[a.round].now)
  }

  ghost predicate RecordsReady(c: Config, s: State, actions: seq<Action>)
    requires Valid(c, s, actions)
    decreases |actions|
  {
    actions == [] || (StillReady(c, s, actions[0]) && RecordsReady(c, Step(c, s, actions[0]), actions[1..]))
  }

  predicate Cool(c: Config, events: map<Slot, Event>, slot: Slot, now: int) {
    slot in events ==> now - events[slot].lastAt >= c.cooldown
  }

  predicate Armed(events: map<Slot, Event>, slot: Slot) {
    slot in events ==> events[slot].armed
  }

  /** `now` is still to come, on the day of the slot, and the symbol can be selected at all. */
  predicate Ahead(c: Config, s: State, slot: Slot, now: int) {
    MovementsEnabled(c) && s.clock <= now && c.day(now) == slot.day && ThresholdFor(c, slot.symbol).Some?
  }

  /** At `now` the file has the slot off cooldown, while memory has it on cooldown, or waiting for a re-arm the file has. */
  predicate Lost(c: Config, s: State, slot: Slot, now: int) {
    && Ahead(c, s, slot, now) && Cool(c, s.disk, slot, now)
    && (!Cool(c, s.mem, slot, now) || (Armed(s.disk, slot) && !Armed(s.mem, slot)))
  }

  ghost predicate NothingLost(c: Config, s: State) {
    forall slot, now: int :: !Lost(c, s, slot, now)
  }

  /** No restart of the run loses a message or a disarming that still counts. */
  ghost predicate RestartsKeep(c: Config, s: State, actions: seq<Action>)
    requires Valid(c, s, actions)
    decreases |actions|
  {
    actions == [] ||
    ((actions[0].Restart? ==> NothingLost(c, s)) && RestartsKeep(c, Step(c, s, actions[0]), actions[1..]))
  }

  // --- de-duplication ----------------------------------------------------------------------------------------------------

  predicate RecordedAt(log: seq<Entry>, i: int, slot: Slot) {
    0 <= i < |log| && log[i].Recorded? && log[i].slot == slot
  }

  /** No message of the slot strictly between two positions. */
  ghost predicate Quiet(log: seq<Entry>, i: int, k: int, slot: Slot) {
    forall j :: i < j < k ==> !RecordedAt(log, j, slot)
  }

  /** The last message of the slot. */
  ghost predicate LastAt(log: seq<Entry>, i: int, slot: Slot) {
    RecordedAt(log, i, slot) && Quiet(log, i, |log|, slot)
  }

  predicate ReArmedAt(c: Config, log: seq<Entry>, j: int, slot: Slot) {
    && 0 <= j < |log| && log[j].ReArmed? && log[j].slot == slot
    && ThresholdFor(c, slot.symbol).Some? && log[j].magnitude < ThresholdFor(c, slot.symbol).value * 0.5
  }

  /** A re-arm of the slot strictly between two positions, by a magnitude below half the threshold. */
  ghost predicate Recovered(c: Config, log: seq<Entry>, i: int, k: int, slot: Slot) {
    exists j :: i < j < k && ReArmedAt(c, log, j, slot)
  }

  ghost predicate PairOk(c: Config, log: seq<Entry>, i: int, k: int, slot: Slot)
    requires RecordedAt(log, i, slot) && RecordedAt(log, k, slot)
  {
    && log[k].at - log[i].at >= c.cooldown
    && ThresholdFor(c, slot.symbol).Some?
    && log[i].magnitude >= ThresholdFor(c, slot.symbol).value && log[k].magnitude >= ThresholdFor(c, slot.symbol).value
    && Recovered(c, log, i, k, slot)
  }

  /** Two consecutive messages of the slot. */
  ghost predicate Consecutive(log: seq<Entry>, i: int, k: int, slot: Slot) {
    RecordedAt(log, i, slot) && RecordedAt(log, k, slot) && i < k && Quiet(log, i, k, slot)
  }

  ghost predicate PairsOk(c: Config, log: seq<Entry>) {
    forall i, k, slot :: Consecutive(log, i, k, slot) ==> PairOk(c, log, i, k, slot)
  }

  ghost predicate EntryOk(c: Config, e: Entry) {
    e.Recorded? ==>
      && e.slot.day == c.day(e.at)
      && ThresholdFor(c, e.slot.symbol).Some? && e.magnitude >= ThresholdFor(c, e.slot.symbol).value
  }

  ghost predicate EntriesOk(c: Config, log: seq<Entry>) {
    forall i :: 0 <= i < |log| ==> EntryOk(c, log[i])
  }

  // --- what runs keep ----------------------------------------------------------------------------------------------------

  /** A time that a round of this process may have read. */
  predicate Live(c: Config, s: State, slot: Slot, now: int) {
    MovementsEnabled(c) && s.boot <= now && c.day(now) == slot.day
  }

  /** What memory lets through at `now` is due: the last message is a cooldown ago, and a re-arm followed it. */
  ghost predicate Due(c: Config, s: State, slot: Slot, now: int, i: int) {
    Live(c, s, slot, now) && ThresholdFor(c, slot.symbol).Some? && LastAt(s.log, i, slot) && Cool(c, s.mem, slot, now) ==>
      now - s.log[i].at >= c.cooldown && (Armed(s.mem, slot) ==> Recovered(c, s.log, i, |s.log|, slot))
  }

  /** An event state of a slot never says more than the last message of the slot. */
  ghost predicate Backed(s: State, events: map<Slot, Event>, slot: Slot) {
    slot in events ==> exists i :: LastAt(s.log, i, slot) && events[slot].lastAt <= s.log[i].at
  }

  /** A re-arm that only the file has belongs to an earlier message. */
  ghost predicate OldArming(c: Config, s: State, slot: Slot, i: int) {
    LastAt(s.log, i, slot) && Armed(s.disk, slot) && !Armed(s.mem, slot) ==> !Recovered(c, s.log, i, |s.log|, slot)
  }

  ghost predicate Knows(c: Config, s: State, slot: Slot, i: int)
    requires slot in s.mem && RecordedAt(s.log, i, slot)
  {
    s.mem[slot].lastAt == s.log[i].at && (s.mem[slot].armed <==> Recovered(c, s.log, i, |s.log|, slot))
  }

  /** Memory knows the last message of the slot and whether a re-arm followed it. */
  ghost predicate Exact(c: Config, s: State, slot: Slot) {
    && slot in s.mem
    && exists i :: LastAt(s.log, i, slot) && Knows(c, s, slot, i)
  }

  /** What a round in flight has selected is still ready, unless another round has recorded the slot since. */
  ghost predicate PickOk(c: Config, s: State, r: nat, x: Symbol) {
    r in s.rounds && x in s.rounds[r].picks ==>
      && x in s.rounds[r].snapshot && Big(c, x, s.rounds[r].snapshot[x])
      && (Ready(c, s.mem, x, s.rounds[r].now) || Exact(c, s, SlotOf(c, s.rounds[r], x)))
  }

  predicate RoundOk(c: Config, s: State, r: nat)
    requires r in s.rounds
  {
    r < s.nextRound && MovementsEnabled(c) && s.boot <= s.rounds[r].now
  }

  ghost predicate Inv(c: Config, s: State) {
    && EntriesOk(c, s.log) && PairsOk(c, s.log)
    && (forall slot :: Backed(s, s.mem, slot) && Backed(s, s.disk, slot))
    && (forall slot, i :: OldArming(c, s, slot, i))
    && (forall slot, now: int, i :: Due(c, s, slot, now, i))
    && (forall r, x :: PickOk(c, s, r, x))
    && s.boot <= s.clock && forall r :: r in s.rounds ==> RoundOk(c, s, r)
  }

  // --- one more entry ----------------------------------------------------------------------------------------------------

  /** Positions before a new entry keep what they are. */
  lemma EntryAdded(c: Config, log: seq<Entry>, e: Entry, slot: Slot)
    ensures forall i :: 0 <= i < |log| ==> (RecordedAt(log + [e], i, slot) <==> RecordedAt(log, i, slot))
    ensures forall i :: 0 <= i < |log| ==> (ReArmedAt(c, log + [e], i, slot) <==> ReArmedAt(c, log, i, slot))
    ensures forall i, k :: k <= |log| ==> (Quiet(log + [e], i, k, slot) <==> Quiet(log, i, k, slot))
    ensures forall i, k :: k <= |log| ==> (Recovered(c, log + [e], i, k, slot) <==> Recovered(c, log, i, k, slot))
  {
    forall i | 0 <= i < |log| ensures (log + [e])[i] == log[i] {
    }
    forall i, k | k <= |log| ensures Quiet(log + [e], i, k, slot) <==> Quiet(log, i, k, slot) {
      forall j | i < j < k ensures RecordedAt(log + [e], j, slot) <==> RecordedAt(log, j, slot) {
      }
    }
    forall i, k | k <= |log| ensures Recovered(c, log + [e], i, k, slot) <==> Recovered(c, log, i, k, slot) {
      if Recovered(c, log, i, k, slot) {
        var j :| i < j < k && ReArmedAt(c, log, j, slot);
        assert ReArmedAt(c, log + [e], j, slot);
      }
      if Recovered(c, log + [e], i, k, slot) {
        var j :| i < j < k && ReArmedAt(c, log + [e], j, slot);
        assert ReArmedAt(c, log, j, slot);
      }
    }
  }

  /** The last message of a slot after a new entry. */
  lemma LastAfter(c: Config, log: seq<Entry>, e: Entry, slot: Slot, i: int)
    ensures LastAt(log + [e], i, slot) <==>
            if e.Recorded? && e.slot == slot then i == |log| else LastAt(log, i, slot)
  {
    EntryAdded(c, log, e, slot);
    var after := log + [e];
    if e.Recorded? && e.slot == slot {
      assert RecordedAt(after, |log|, slot);
    } else {
      assert !RecordedAt(after, |log|, slot);
      if LastAt(log, i, slot) {
        forall j | i < j < |after| ensures !RecordedAt(after, j, slot) {
          assert j < |log| ==> !RecordedAt(log, j, slot);
        }
      }
      if LastAt(after, i, slot) {
        forall j | i < j < |log| ensures !RecordedAt(log, j, slot) {
          assert !RecordedAt(after, j, slot);
        }
      }
    }
  }

  /** Whether a re-arm followed, after a new entry. */
  lemma RecoveredAfter(c: Config, log: seq<Entry>, e: Entry, slot: Slot, i: int)
    requires RecordedAt(log, i, slot)
    ensures Recovered(c, log + [e], i, |log| + 1, slot) <==>
            Recovered(c, log, i, |log|, slot) || ReArmedAt(c, log + [e], |log|, slot)
  {
    EntryAdded(c, log, e, slot);
    if Recovered(c, log + [e], i, |log| + 1, slot) {
      var j :| i < j < |log| + 1 && ReArmedAt(c, log + [e], j, slot);
      assert j < |log| ==> ReArmedAt(c, log, j, slot);
    }
    if Recovered(c, log, i, |log|, slot) {
      var j :| i < j < |log| && ReArmedAt(c, log, j, slot);
      assert ReArmedAt(c, log + [e], j, slot);
    }
  }

  // --- steps that write nothing new ----------------------------------------------------------------------------------------

  /** The step adds one entry to the log. */
  predicate Notes(a: Action) {
    a.Record? || a.ReArm?
  }

  lemma QuietStep(c: Config, s: State, a: Action)
    requires Enabled(c, s, a) && Inv(c, s) && !Notes(a) && (a.Restart? ==> NothingLost(c, s))
    ensures Inv(c, Step(c, s, a))
  {
    var t := Step(c, s, a);
    forall slot ensures Backed(t, t.mem, slot) && Backed(t, t.disk, slot) {
      assert Backed(s, s.mem, slot) && Backed(s, s.disk, slot);
    }
    forall slot, i ensures OldArming(c, t, slot, i) {
      assert OldArming(c, s, slot, i);
    }
    forall slot, now: int, i ensures Due(c, t, slot, now, i) {
      assert Due(c, s, slot, now, i);
      if Live(c, t, slot, now) && ThresholdFor(c, slot.symbol).Some? {
        assert a.Restart? ==> Ahead(c, s, slot, now) && !Lost(c, s, slot, now);
      }
    }
    forall r, x ensures PickOk(c, t, r, x) {
      assert PickOk(c, s, r, x);
      if r in t.rounds && x in t.rounds[r].picks && !(a.Select? && r == s.nextRound) {
        if Exact(c, s, SlotOf(c, s.rounds[r], x)) { assert Exact(c, t, SlotOf(c, t.rounds[r], x)); }
      }
    }
  }

  // --- steps that add an entry ---------------------------------------------------------------------------------------------

  function NewEntry(c: Config, s: State, a: Action): Entry
    requires Enabled(c, s, a) && Notes(a)
  {
    var round := s.rounds[a.round];
    if a.Record? then Recorded(SlotOf(c, round, a.symbol), round.now, Magnitude(round.snapshot[a.symbol]))
    else ReArmed(SlotOf(c, round, a.symbol), Magnitude(round.snapshot[a.symbol]))
  }

  lemma BackedNext(c: Config, s: State, a: Action, slot: Slot)
    requires Enabled(c, s, a) && Inv(c, s) && Notes(a) && StillReady(c, s, a)
    ensures Backed(Step(c, s, a), Step(c, s, a).mem, slot) && Backed(Step(c, s, a), Step(c, s, a).disk, slot)
  {
    var t, e, n := Step(c, s, a), NewEntry(c, s, a), |s.log|;
    assert Backed(s, s.mem, slot) && Backed(s, s.disk, slot);
    LastAfter(c, s.log, e, slot, n);
    if a.Record? && slot == e.slot {
      assert LastAt(t.log, n, slot) && t.log[n] == e;
      if slot in s.disk {
        var i :| LastAt(s.log, i, slot) && s.disk[slot].lastAt <= s.log[i].at;
        assert PickOk(c, s, a.round, a.symbol) && Due(c, s, slot, e.at, i);
        assert Live(c, s, slot, e.at);
      }
    } else if slot in t.mem || slot in t.disk {
      var i :| LastAt(s.log, i, slot);
      LastAfter(c, s.log, e, slot, i);
      assert forall k :: LastAt(s.log, k, slot) ==> k == i;
      assert LastAt(t.log, i, slot) && t.log[i] == s.log[i];
    }
  }

  lemma ArmingNext(c: Config, s: State, a: Action, slot: Slot, i: int)
    requires Enabled(c, s, a) && Notes(a) && OldArming(c, s, slot, i)
    ensures OldArming(c, Step(c, s, a), slot, i)
  {
    var e := NewEntry(c, s, a);
    LastAfter(c, s.log, e, slot, i);
    if LastAt(s.log, i, slot) { RecoveredAfter(c, s.log, e, slot, i); }
  }

  lemma DueNext(c: Config, s: State, a: Action, slot: Slot, now: int, i: int)
    requires Enabled(c, s, a) && Notes(a) && Due(c, s, slot, now, i)
    ensures Due(c, Step(c, s, a), slot, now, i)
  {
    var t, e := Step(c, s, a), NewEntry(c, s, a);
    LastAfter(c, s.log, e, slot, i);
    if Live(c, t, slot, now) && ThresholdFor(c, slot.symbol).Some? {
      if LastAt(s.log, i, slot) { RecoveredAfter(c, s.log, e, slot, i); }
    }
  }

  lemma ExactNext(c: Config, s: State, a: Action, slot: Slot)
    requires Enabled(c, s, a) && Notes(a)
    requires Exact(c, s, slot) || (a.Record? && slot == SlotOf(c, s.rounds[a.round], a.symbol))
    ensures Exact(c, Step(c, s, a), slot)
  {
    var t, e, n := Step(c, s, a), NewEntry(c, s, a), |s.log|;
    if a.Record? && slot == e.slot {
      LastAfter(c, s.log, e, slot, n);
      assert LastAt(t.log, n, slot) && !Recovered(c, t.log, n, |t.log|, slot);
    } else {
      var i :| LastAt(s.log, i, slot) && Knows(c, s, slot, i);
      LastAfter(c, s.log, e, slot, i);
      RecoveredAfter(c, s.log, e, slot, i);
      assert LastAt(t.log, i, slot);
    }
  }

  lemma PickNext(c: Config, s: State, a: Action, r: nat, x: Symbol)
    requires Enabled(c, s, a) && Notes(a) && PickOk(c, s, r, x)
    ensures PickOk(c, Step(c, s, a), r, x)
  {
    var t := Step(c, s, a);
    if r in t.rounds && x in t.rounds[r].picks {
      var slot := SlotOf(c, s.rounds[r], x);
      if Exact(c, s, slot) || (a.Record? && slot == SlotOf(c, s.rounds[a.round], a.symbol)) {
        ExactNext(c, s, a, slot);
      }
    }
  }

  /** A slot that is ready has its last message a cooldown ago and a re-arm after it. */
  lemma ReadyIsDue(c: Config, s: State, a: Action, i: int)
    requires Enabled(c, s, a) && Inv(c, s) && a.Record? && StillReady(c, s, a)
    requires LastAt(s.log, i, NewEntry(c, s, a).slot)
    ensures NewEntry(c, s, a).at - s.log[i].at >= c.cooldown
    ensures Recovered(c, s.log, i, |s.log|, NewEntry(c, s, a).slot)
  {
    var e := NewEntry(c, s, a);
    assert PickOk(c, s, a.round, a.symbol);
    assert Live(c, s, e.slot, e.at) && Due(c, s, e.slot, e.at, i);
  }

  lemma PairsNext(c: Config, s: State, a: Action)
    requires Enabled(c, s, a) && Inv(c, s) && Notes(a) && StillReady(c, s, a)
    ensures PairsOk(c, Step(c, s, a).log)
  {
    var t, e, n := Step(c, s, a), NewEntry(c, s, a), |s.log|;
    forall i, k, slot | Consecutive(t.log, i, k, slot) ensures PairOk(c, t.log, i, k, slot) {
      EntryAdded(c, s.log, e, slot);
      if k < n {
        assert Consecutive(s.log, i, k, slot);
      } else {
        assert LastAt(s.log, i, slot) && EntryOk(c, s.log[i]) && PickOk(c, s, a.round, a.symbol);
        ReadyIsDue(c, s, a, i);
      }
    }
  }

  lemma NotingStep(c: Config, s: State, a: Action)
    requires Enabled(c, s, a) && Inv(c, s) && Notes(a) && StillReady(c, s, a)
    ensures Inv(c, Step(c, s, a))
  {
    var t := Step(c, s, a);
    assert PickOk(c, s, a.round, a.symbol);
    assert EntryOk(c, NewEntry(c, s, a));
    PairsNext(c, s, a);
    forall slot ensures Backed(t, t.mem, slot) && Backed(t, t.disk, slot) {
      BackedNext(c, s, a, slot);
    }
    forall slot, i ensures OldArming(c, t, slot, i) {
      ArmingNext(c, s, a, slot, i);
    }
    forall slot, now: int, i ensures Due(c, t, slot, now, i) {
      DueNext(c, s, a, slot, now, i);
    }
    forall r, x ensures PickOk(c, t, r, x) {
      PickNext(c, s, a, r, x);
    }
  }

  lemma StepKeeps(c: Config, s: State, a: Action)
    requires Enabled(c, s, a) && Inv(c, s) && StillReady(c, s, a) && (a.Restart? ==> NothingLost(c, s))
    ensures Inv(c, Step(c, s, a))
  {
    if Notes(a) {
      NotingStep(c, s, a);
    } else {
      QuietStep(c, s, a);
    }
  }

  // --- exactly when events stay apart ------------------------------------------------------------------------------------

  lemma TooClose(c: Config, s: State, a: Action, i: int)
    requires Enabled(c, s, a) && a.Record? && LastAt(s.log, i, NewEntry(c, s, a).slot)
    requires var e := NewEntry(c, s, a);
             e.at - s.log[i].at < c.cooldown || !Recovered(c, s.log, i, |s.log|, e.slot)
    ensures !PairsOk(c, Step(c, s, a).log)
  {
    var t, e, n := Step(c, s, a), NewEntry(c, s, a), |s.log|;
    EntryAdded(c, s.log, e, e.slot);
    assert t.log == s.log + [e] && Consecutive(t.log, i, n, e.slot) && !PairOk(c, t.log, i, n, e.slot);
  }

  /** A record that finds its slot no longer ready is too close to the message another round has recorded. */
  lemma UnreadyCrowds(c: Config, s: State, a: Action)
    requires Enabled(c, s, a) && Inv(c, s) && a.Record? && !StillReady(c, s, a)
    ensures !PairsOk(c, Step(c, s, a).log)
  {
    var slot := NewEntry(c, s, a).slot;
    assert PickOk(c, s, a.round, a.symbol) && Exact(c, s, slot);
    var i :| LastAt(s.log, i, slot) && Knows(c, s, slot, i);
    TooClose(c, s, a, i);
  }

  lemma CrowdedStays(c: Config, log: seq<Entry>, e: Entry)
    requires !PairsOk(c, log)
    ensures !PairsOk(c, log + [e])
  {
    var i, k, slot :| Consecutive(log, i, k, slot) && !PairOk(c, log, i, k, slot);
    EntryAdded(c, log, e, slot);
    assert Consecutive(log + [e], i, k, slot) && !PairOk(c, log + [e], i, k, slot);
  }

  lemma {:induction false} CrowdedForever(c: Config, s: State, actions: seq<Action>)
    requires Valid(c, s, actions) && !PairsOk(c, s.log)
    ensures !PairsOk(c, Run(c, s, actions).log)
    decreases |actions|
  {
    if actions != [] {
      var a := actions[0];
      if Notes(a) { CrowdedStays(c, s.log, NewEntry(c, s, a)); }
      CrowdedForever(c, Step(c, s, a), actions[1..]);
    }
  }

  lemma {:induction false} ApartExactly(c: Config, s: State, actions: seq<Action>)
    requires Inv(c, s) && Valid(c, s, actions) && RestartsKeep(c, s, actions)
    ensures PairsOk(c, Run(c, s, actions).log) <==> RecordsReady(c, s, actions)
    ensures RecordsReady(c, s, actions) ==> Inv(c, Run(c, s, actions))
    decreases |actions|
  {
    if actions != [] {
      var a := actions[0];
      if StillReady(c, s, a) {
        StepKeeps(c, s, a);
        ApartExactly(c, Step(c, s, a), actions[1..]);
      } else {
        UnreadyCrowds(c, s, a);
        CrowdedForever(c, Step(c, s, a), actions[1..]);
      }
    }
  }

  lemma StartOk(c: Config)
    ensures Inv(c, Start())
  {
  }

  /**
   * Over whole days, with rounds that overlap, failed writes, and restarts that lose nothing that still counts: all
   * consecutive events of one symbol and day are a cooldown apart, at or above the threshold and separated by a re-arm
   * below half of it, if and only if every record finds its slot as ready as the selection did.
   */
  lemma EventsApartExactly(c: Config, actions: seq<Action>)
    requires Valid(c, Start(), actions) && RestartsKeep(c, Start(), actions)
    ensures PairsOk(c, Run(c, Start(), actions).log) <==> RecordsReady(c, Start(), actions)
  {
    StartOk(c);
    ApartExactly(c, Start(), actions);
  }

  predicate Records(a: Action, r: nat, x: Symbol) {
    a.Record? && a.round == r && a.symbol == x
  }

  ghost predicate StillRecords(actions: seq<Action>, r: nat, x: Symbol) {
    exists k :: 0 <= k < |actions| && Records(actions[k], r, x)
  }

  /** No slot is recorded by one round between its selection and its record by another. */
  ghost predicate Undisturbed(c: Config, s: State, actions: seq<Action>)
    requires Valid(c, s, actions)
    decreases |actions|
  {
    actions == [] ||
    (&& (actions[0].Record? ==>
           var q, x := actions[0].round, actions[0].symbol;
           forall r :: r in s.rounds && r != q && x in s.rounds[r].picks && SlotOf(c, s.rounds[r], x) == SlotOf(c, s.rounds[q], x)
             ==> !StillRecords(actions[1..], r, x))
     && Undisturbed(c, Step(c, s, actions[0]), actions[1..]))
  }

  /** Whatever the rounds in flight are still to record is ready. */
  ghost predicate Promised(c: Config, s: State, actions: seq<Action>) {
    forall r, x :: r in s.rounds && x in s.rounds[r].picks && StillRecords(actions, r, x) ==>
      Ready(c, s.mem, x, s.rounds[r].now)
  }

  lemma PromisedNext(c: Config, s: State, actions: seq<Action>)
    requires actions != [] && Valid(c, s, actions) && Undisturbed(c, s, actions) && Promised(c, s, actions)
    ensures StillReady(c, s, actions[0]) && Promised(c, Step(c, s, actions[0]), actions[1..])
  {
    var a, rest := actions[0], actions[1..];
    var t := Step(c, s, a);
    assert a.Record? ==> Records(a, a.round, a.symbol) && StillRecords(actions, a.round, a.symbol);
    forall r, x | r in t.rounds && x in t.rounds[r].picks && StillRecords(rest, r, x)
      ensures Ready(c, t.mem, x, t.rounds[r].now)
    {
      var k :| 0 <= k < |rest| && Records(rest[k], r, x);
      assert Records(actions[k + 1], r, x) && StillRecords(actions, r, x);
    }
  }

  lemma {:induction false} UndisturbedIsReady(c: Config, s: State, actions: seq<Action>)
    requires Valid(c, s, actions) && Undisturbed(c, s, actions) && Promised(c, s, actions)
    ensures RecordsReady(c, s, actions)
    decreases |actions|
  {
    if actions != [] {
      PromisedNext(c, s, actions);
      UndisturbedIsReady(c, Step(c, s, actions[0]), actions[1..]);
    }
  }

  /** Rounds that do not record what another one is about to record keep the events of a symbol apart. */
  lemma ConsecutiveEvents(c: Config, actions: seq<Action>, i: nat, k: nat, slot: Slot)
    requires Valid(c, Start(), actions) && RestartsKeep(c, Start(), actions) && Undisturbed(c, Start(), actions)
    requires Consecutive(Run(c, Start(), actions).log, i, k, slot)
    ensures PairOk(c, Run(c, Start(), actions).log, i, k, slot)
    ensures var log := Run(c, Start(), actions).log; c.day(log[i].at) == c.day(log[k].at) == slot.day
  {
    StartOk(c);
    UndisturbedIsReady(c, Start(), actions);
    ApartExactly(c, Start(), actions);
    var log := Run(c, Start(), actions).log;
    assert EntryOk(c, log[i]) && EntryOk(c, log[k]);
  }

  // --- restarts that lose something --------------------------------------------------------------------------------------

  /** An orderly continuation publishes two events of a slot too close, or without a re-arm between them. */
  ghost predicate Crowds(c: Config, s: State, actions: seq<Action>) {
    && Valid(c, s, actions) && RestartsKeep(c, s, actions) && RecordsReady(c, s, actions)
    && !PairsOk(c, Run(c, s, actions).log)
  }

  /** After a restart some orderly continuation crowds two events if and only if the restart lost something. */
  lemma RestartCrowdsExactly(c: Config, s: State)
    requires Inv(c, s)
    ensures (exists actions :: Crowds(c, Step(c, s, Restart), actions)) <==> !NothingLost(c, s)
  {
    var t := Step(c, s, Restart);
    if NothingLost(c, s) {
      StepKeeps(c, s, Restart);
      forall actions | Valid(c, t, actions) && RestartsKeep(c, t, actions) ensures !Crowds(c, t, actions) {
        ApartExactly(c, t, actions);
      }
    } else {
      var slot, now: int :| Lost(c, s, slot, now);
      var actions := Crowding(c, s, slot, now);
      assert Crowds(c, t, actions);
    }
  }

  lemma One(c: Config, s: State, a: Action, rest: seq<Action>)
    requires Enabled(c, s, a) && Valid(c, Step(c, s, a), rest)
    ensures Valid(c, s, [a] + rest) && Run(c, s, [a] + rest) == Run(c, Step(c, s, a), rest)
    ensures !a.Restart? && RestartsKeep(c, Step(c, s, a), rest) ==> RestartsKeep(c, s, [a] + rest)
    ensures StillReady(c, s, a) && RecordsReady(c, Step(c, s, a), rest) ==> RecordsReady(c, s, [a] + rest)
  {
    assert ([a] + rest)[1..] == rest;
  }

  function AtThreshold(c: Config, symbol: Symbol): map<Symbol, real> {
    map[symbol := if ThresholdFor(c, symbol).Some? then ThresholdFor(c, symbol).value else 0.0]
  }

  /** A round of one symbol: select, publish, record. */
  function Publication(c: Config, s: State, symbol: Symbol, now: int, ok: bool): seq<Action> {
    [Select(now, AtThreshold(c, symbol), {symbol})] + ([Record(s.nextRound, symbol, ok)] + [])
  }

  lemma Publishes(c: Config, s: State, symbol: Symbol, now: int, ok: bool)
    requires MovementsEnabled(c) && s.boot <= now && ThresholdFor(c, symbol).Some? && Ready(c, s.mem, symbol, now)
    ensures var actions := Publication(c, s, symbol, now, ok);
            && Valid(c, s, actions) && RestartsKeep(c, s, actions) && RecordsReady(c, s, actions)
            && Run(c, s, actions).clock == (if s.clock < now then now else s.clock) && (!ok ==> Run(c, s, actions).disk == s.disk)
            && Run(c, s, actions).log ==
               s.log + [Recorded(Slot(symbol, c.day(now)), now, Magnitude(AtThreshold(c, symbol)[symbol]))]
  {
    var select, record := Select(now, AtThreshold(c, symbol), {symbol}), Record(s.nextRound, symbol, ok);
    var s1 := Step(c, s, select);
    One(c, s1, record, []);
    One(c, s, select, [record] + []);
  }

  lemma PublishedTooClose(c: Config, s: State, symbol: Symbol, now: int, i: int) returns (actions: seq<Action>)
    requires MovementsEnabled(c) && s.boot <= now && ThresholdFor(c, symbol).Some? && Ready(c, s.mem, symbol, now)
    requires LastAt(s.log, i, Slot(symbol, c.day(now)))
    requires now - s.log[i].at < c.cooldown || !Recovered(c, s.log, i, |s.log|, Slot(symbol, c.day(now)))
    ensures Crowds(c, s, actions)
  {
    actions := Publication(c, s, symbol, now, true);
    Publishes(c, s, symbol, now, true);
    TooClose(c, Step(c, s, actions[0]), Record(s.nextRound, symbol, true), i);
    One(c, Step(c, s, actions[0]), Record(s.nextRound, symbol, true), []);
    One(c, s, actions[0], [Record(s.nextRound, symbol, true)] + []);
  }

  /** Publish as soon as the file allows it, after a re-arm when the file asks for one. */
  lemma Crowding(c: Config, s: State, slot: Slot, now: int) returns (actions: seq<Action>)
    requires Inv(c, s) && Lost(c, s, slot, now)
    ensures Crowds(c, Step(c, s, Restart), actions)
  {
    var t := Step(c, s, Restart);
    assert Backed(s, s.mem, slot);
    var i :| LastAt(s.log, i, slot) && s.mem[slot].lastAt <= s.log[i].at;
    if Armed(t.mem, slot) {
      assert OldArming(c, s, slot, i);
      actions := PublishedTooClose(c, t, slot.symbol, now, i);
    } else {
      actions := ReArmedTooClose(c, t, slot, now, i);
    }
  }

  /** A round of some other symbol that is not published still re-arms the calm slot; the next round publishes it. */
  lemma ReArmedTooClose(c: Config, s: State, slot: Slot, now: int, i: int) returns (actions: seq<Action>)
    requires s.boot <= s.clock && Ahead(c, s, slot, now) && slot in s.mem && !s.mem[slot].armed && Cool(c, s.mem, slot, now)
    requires LastAt(s.log, i, slot) && now - s.log[i].at < c.cooldown
    ensures Crowds(c, s, actions)
  {
    var known := set x | x in s.mem :: x.symbol;
    var other := Unused(c.overrides.Keys + {slot.symbol} + known);
    assert forall x :: x in s.mem ==> x.symbol in known;
    var r := s.nextRound;
    var select := Select(now, map[other := c.threshold, slot.symbol := 0.0], {other});
    var s1 := Step(c, s, select);
    var s2 := Step(c, s1, Refused(r));
    var s3 := Step(c, s2, ReArm(r, slot.symbol, true));
    LastAfter(c, s.log, ReArmed(slot, 0.0), slot, i);
    var rest := PublishedTooClose(c, s3, slot.symbol, now, i);
    One(c, s2, ReArm(r, slot.symbol, true), rest);
    One(c, s1, Refused(r), [ReArm(r, slot.symbol, true)] + rest);
    One(c, s, select, [Refused(r)] + ([ReArm(r, slot.symbol, true)] + rest));
    actions := [select] + ([Refused(r)] + ([ReArm(r, slot.symbol, true)] + rest));
  }

  /** A symbol longer than all of these. */
  lemma {:induction false} Longer(symbols: set<Symbol>) returns (n: nat)
    ensures forall x :: x in symbols ==> |x| < n
    decreases |symbols|
  {
    n := 0;
    if symbols != {} {
      var x :| x in symbols;
      var m := Longer(symbols - {x});
      n := if |x| < m then m else |x| + 1;
    }
  }

  lemma Unused(symbols: set<Symbol>) returns (x: Symbol)
    ensures x !in symbols
  {
    var n := Longer(symbols);
    x := seq(n, i => 'x');
  }

  // --- runs that go wrong ------------------------------------------------------------------------------------------------

  ghost predicate LogIs(c: Config, symbol: Symbol, actions: seq<Action>, first: int, second: int) {
    Valid(c, Start(), actions) && ThresholdFor(c, symbol).Some? &&
    var slot, big, log := Slot(symbol, c.day(first)), ThresholdFor(c, symbol).value, Run(c, Start(), actions).log;
    log == [Recorded(slot, first, big), Recorded(slot, second, big)] && !PairsOk(c, log)
  }

  lemma PairCrowds(c: Config, e: Entry, f: Entry)
    requires e.Recorded? && f.Recorded? && e.slot == f.slot
    ensures !PairsOk(c, [e, f])
  {
    assert Consecutive([e, f], 0, 1, e.slot) && !Recovered(c, [e, f], 0, 1, e.slot);
  }

  /**
   * From the start: two rounds select the symbol before either has recorded it, say because the first one sleeps
   * between attempts, and both record it, the later one first or last.
   */
  lemma OverlapCrowds(c: Config, symbol: Symbol, first: nat, second: nat) returns (actions: seq<Action>)
    requires MovementsEnabled(c) && ThresholdFor(c, symbol).Some? && c.day(first) == c.day(second)
    ensures LogIs(c, symbol, actions, first, second) && RestartsKeep(c, Start(), actions)
  {
    var select, again := Select(first, AtThreshold(c, symbol), {symbol}), Select(second, AtThreshold(c, symbol), {symbol});
    var s1 := Step(c, Start(), select);
    var s2 := Step(c, s1, again);
    var s3 := Step(c, s2, Record(0, symbol, true));
    var last := [Record(1, symbol, true)] + [];
    One(c, s3, Record(1, symbol, true), []);
    One(c, s2, Record(0, symbol, true), last);
    One(c, s1, again, [Record(0, symbol, true)] + last);
    One(c, Start(), select, [again] + ([Record(0, symbol, true)] + last));
    actions := [select] + ([again] + ([Record(0, symbol, true)] + last));
    var log := Run(c, Start(), actions).log;
    PairCrowds(c, log[0], log[1]);
  }

  lemma {:induction false} Then(c: Config, s: State, first: seq<Action>, rest: seq<Action>)
    requires Valid(c, s, first) && Valid(c, Run(c, s, first), rest)
    ensures Valid(c, s, first + rest) && Run(c, s, first + rest) == Run(c, Run(c, s, first), rest)
    decreases |first|
  {
    if first == [] {
      assert first + rest == rest;
    } else {
      Then(c, Step(c, s, first[0]), first[1..], rest);
      One(c, s, first[0], first[1..] + rest);
      assert [first[0]] + (first[1..] + rest) == first + rest;
    }
  }

  /** From the start: a lost record, a restart, and a second event of the symbol within its cooldown. */
  lemma LostRecordCrowds(c: Config, symbol: Symbol, first: nat, second: int) returns (actions: seq<Action>)
    requires MovementsEnabled(c) && ThresholdFor(c, symbol).Some? && first <= second && c.day(first) == c.day(second)
    ensures LogIs(c, symbol, actions, first, second)
  {
    var lost := Publication(c, Start(), symbol, first, false);
    Publishes(c, Start(), symbol, first, false);
    var s := Run(c, Start(), lost);
    var t := Step(c, s, Restart);
    assert t.mem == map[];
    Publishes(c, t, symbol, second, true);
    var again := Publication(c, t, symbol, second, true);
    One(c, s, Restart, again);
    Then(c, Start(), lost, [Restart] + again);
    actions := lost + ([Restart] + again);
    var log := Run(c, Start(), actions).log;
    PairCrowds(c, log[0], log[1]);
  }
}
