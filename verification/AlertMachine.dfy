/**
 * The alert document under every interleaving of transactions, failed writes and restarts.
 * A failed write is only logged: memory keeps the change and the file does not, until a later write succeeds.
 */
module AlertMachine {
  import opened Common
  import opened AlertModel
  import AlertEvaluator

  datatype State = State(mem: Book, disk: Book, limits: map<UserId, nat>, fired: seq<AlertId>)

  datatype Action = Transact(op: Op, ok: bool) | Raise(user: UserId, limit: nat) | Restart

  predicate Fresh(s: State, id: AlertId) {
    && id !in s.mem.alerts && id !in s.mem.deliveries && id !in s.disk.alerts && id !in s.disk.deliveries
    && id !in s.fired
  }

  predicate LimitOf(s: State, user: UserId, seen: nat) {
    user in s.limits && seen <= s.limits[user]
  }

  /** Ids are fresh, and a capacity read earlier is at most the present one. */
  predicate Enabled(s: State, a: Action) {
    match a
    case Transact(op, _) =>
      op.Create? ==> Fresh(s, op.id) && op.alert.status == Active && LimitOf(s, op.alert.user, op.limit)
    case Raise(user, limit) => user in s.limits ==> s.limits[user] <= limit
    case Restart => true
  }

  function Step(s: State, a: Action): State {
    match a
    case Transact(op, ok) =>
      var mem := Apply(s.mem, op);
      State(mem, if Saves(s.mem, op) && ok then mem else s.disk, s.limits,
            if op.Reserve? && Saves(s.mem, op) then s.fired + [op.id] else s.fired)
    case Raise(user, limit) => s.(limits := s.limits[user := limit])
    case Restart => s.(mem := s.disk)
  }

  predicate Valid(s: State, actions: seq<Action>)
    decreases |actions|
  {
    actions == [] || (Enabled(s, actions[0]) && Valid(Step(s, actions[0]), actions[1..]))
  }

  function Run(s: State, actions: seq<Action>): State
    decreases |actions|
  {
    if actions == [] then s else Run(Step(s, actions[0]), actions[1..])
  }

  // --- the invariant ---------------------------------------------------------------------------------------------

  /** TRIGGERED has a delivery record, and a record stands only beside a TRIGGERED or DELETED alert. */
  ghost predicate OneShot(book: Book) {
    && (forall id :: id in book.alerts && book.alerts[id].status == Triggered ==> id in book.deliveries)
    && forall id :: id in book.deliveries ==>
         id in book.alerts && (book.alerts[id].status == Triggered || book.alerts[id].status == Deleted)
  }

  ghost predicate WithinCapacity(book: Book, limits: map<UserId, nat>) {
    forall id :: id in book.alerts ==>
      book.alerts[id].user in limits && |Held(book, book.alerts[id].user)| <= limits[book.alerts[id].user]
  }

  predicate Rivals(x: Alert, y: Alert) {
    && CountsTowardsCapacity(x.status) && CountsTowardsCapacity(y.status)
    && x.user == y.user && x.target == y.target
  }

  ghost predicate Distinct(book: Book) {
    forall a, b | a in book.alerts && b in book.alerts :: Rivals(book.alerts[a], book.alerts[b]) ==> a == b
  }

  ghost predicate BookOk(book: Book, limits: map<UserId, nat>) {
    OneShot(book) && WithinCapacity(book, limits) && Distinct(book)
  }

  ghost predicate Inv(s: State) {
    BookOk(s.mem, s.limits) && BookOk(s.disk, s.limits)
  }

  lemma HeldAfter(book: Book, op: Op, user: UserId)
    ensures Held(Apply(book, op), user) <=
            Held(book, user) + if op.Create? && op.alert.user == user && Saves(book, op) then {op.id} else {}
  {
  }

  lemma CapacityKept(s: State, op: Op, ok: bool)
    requires WithinCapacity(s.mem, s.limits) && Enabled(s, Transact(op, ok))
    ensures WithinCapacity(Apply(s.mem, op), s.limits)
  {
    var after := Apply(s.mem, op);
    forall id | id in after.alerts
      ensures after.alerts[id].user in s.limits && |Held(after, after.alerts[id].user)| <= s.limits[after.alerts[id].user]
    {
      var user := after.alerts[id].user;
      HeldAfter(s.mem, op, user);
      var room := Held(s.mem, user) + if op.Create? && op.alert.user == user && Saves(s.mem, op) then {op.id} else {};
      SubsetSize(Held(after, user), room);
      if id in s.mem.alerts {
        assert s.mem.alerts[id].user == user;
      }
    }
  }

  lemma OtherHeld(book: Book, op: Op, x: AlertId)
    requires x in Apply(book, op).alerts && x != op.id
    ensures x in book.alerts && Apply(book, op).alerts[x] == book.alerts[x]
  {
  }

  /** No other held alert has the target of the alert that was just written. */
  lemma DistinctFrom(book: Book, op: Op, x: AlertId)
    requires Distinct(book) && Saves(book, op) && (op.Create? ==> op.id !in book.alerts)
    requires x in book.alerts && x != op.id && op.id in Apply(book, op).alerts
    ensures !Rivals(Apply(book, op).alerts[op.id], book.alerts[x])
  {
    var written := Apply(book, op).alerts[op.id];
    assert op.id in book.alerts ==> !Rivals(book.alerts[op.id], book.alerts[x]);
    assert Rivals(written, book.alerts[x]) ==> x in Held(book, written.user);
  }

  lemma DistinctKept(book: Book, op: Op)
    requires Distinct(book) && (op.Create? ==> op.id !in book.alerts)
    ensures Distinct(Apply(book, op))
  {
    var after := Apply(book, op);
    forall a, b | a in after.alerts && b in after.alerts && a != b ensures !Rivals(after.alerts[a], after.alerts[b]) {
      if Saves(book, op) {
        if a == op.id {
          OtherHeld(book, op, b);
          DistinctFrom(book, op, b);
        } else if b == op.id {
          OtherHeld(book, op, a);
          DistinctFrom(book, op, a);
        } else {
          OtherHeld(book, op, a);
          OtherHeld(book, op, b);
        }
      }
    }
  }

  lemma StepKeeps(s: State, a: Action)
    requires Inv(s) && Enabled(s, a)
    ensures Inv(Step(s, a))
  {
    match a
    case Transact(op, ok) =>
      CapacityKept(s, op, ok);
      DistinctKept(s.mem, op);
    case Raise(user, limit) =>
      assert WithinCapacity(s.mem, s.limits[user := limit]);
      assert WithinCapacity(s.disk, s.limits[user := limit]);
    case Restart =>
  }

  /**
   * Over any interleaving, in memory and in the file: TRIGGERED exactly with its record, capacity never exceeded
   * and no user holds two alerts with one target.
   */
  lemma {:induction false} RunKeeps(s: State, actions: seq<Action>)
    requires Inv(s) && Valid(s, actions)
    ensures Inv(Run(s, actions))
    decreases |actions|
  {
    if actions != [] {
      StepKeeps(s, actions[0]);
      RunKeeps(Step(s, actions[0]), actions[1..]);
    }
  }

  /** The reservation's second guard never decides: no reachable ACTIVE alert has a delivery record. */
  lemma GuardUnreachable(s: State, actions: seq<Action>, id: AlertId)
    requires Inv(s) && Valid(s, actions)
    requires id in Run(s, actions).mem.alerts && Run(s, actions).mem.alerts[id].status == Active
    ensures id !in Run(s, actions).mem.deliveries
    ensures forall price :: Saves(Run(s, actions).mem, Reserve(id, price))
  {
    RunKeeps(s, actions);
  }

  // --- never back, and at most one trigger ---------------------------------------------------------------------------

  predicate Spent(book: Book, id: AlertId) {
    id in book.alerts && (book.alerts[id].status == Triggered || book.alerts[id].status == Deleted)
  }

  /** The file has the present status of the alert, and its record. */
  predicate StatusOnDisk(s: State, id: AlertId) {
    id in s.mem.alerts ==>
      && id in s.disk.alerts && s.disk.alerts[id].status == s.mem.alerts[id].status
      && (id in s.mem.deliveries ==> id in s.disk.deliveries)
  }

  /** If this alert has triggered, the file does not hold it as ACTIVE or DISABLED. */
  predicate TriggerOnDisk(s: State, id: AlertId) {
    id in s.fired && id in s.disk.alerts ==> Spent(s.disk, id)
  }

  ghost predicate RestartsFindStatus(s: State, actions: seq<Action>, id: AlertId)
    decreases |actions|
  {
    actions == [] ||
    ((actions[0].Restart? ==> StatusOnDisk(s, id)) && RestartsFindStatus(Step(s, actions[0]), actions[1..], id))
  }

  ghost predicate RestartsFindTrigger(s: State, actions: seq<Action>, id: AlertId)
    decreases |actions|
  {
    actions == [] ||
    ((actions[0].Restart? ==> TriggerOnDisk(s, id)) && RestartsFindTrigger(Step(s, actions[0]), actions[1..], id))
  }

  /** TRIGGERED and DELETED never return to ACTIVE or DISABLED, DELETED stays, and the record is never lost. */
  lemma {:induction false} SpentForever(s: State, actions: seq<Action>, id: AlertId)
    requires Valid(s, actions) && RestartsFindStatus(s, actions, id) && Spent(s.mem, id)
    ensures Spent(Run(s, actions).mem, id)
    ensures s.mem.alerts[id].status == Deleted ==> Run(s, actions).mem.alerts[id].status == Deleted
    ensures id in s.mem.deliveries ==> id in Run(s, actions).mem.deliveries
    decreases |actions|
  {
    if actions != [] {
      SpentForever(Step(s, actions[0]), actions[1..], id);
    }
  }

  /** What triggered, or was deleted, keeps its target, its baseline and its owner. */
  lemma {:induction false} SpentStaysAsIs(s: State, actions: seq<Action>, id: AlertId)
    requires Valid(s, actions) && (forall i :: 0 <= i < |actions| ==> !actions[i].Restart?) && Spent(s.mem, id)
    ensures Spent(Run(s, actions).mem, id)
    ensures Run(s, actions).mem.alerts[id] == s.mem.alerts[id].(status := Run(s, actions).mem.alerts[id].status)
    decreases |actions|
  {
    if actions != [] {
      assert forall i :: 0 <= i < |actions[1..]| ==> actions[1..][i] == actions[i + 1];
      SpentStaysAsIs(Step(s, actions[0]), actions[1..], id);
    }
  }

  function Fired(log: seq<AlertId>, id: AlertId): nat {
    if log == [] then 0 else Fired(log[..|log| - 1], id) + if log[|log| - 1] == id then 1 else 0
  }

  lemma FiredAppend(log: seq<AlertId>, x: AlertId, id: AlertId)
    ensures Fired(log + [x], id) == Fired(log, id) + if x == id then 1 else 0
  {
    assert (log + [x])[..|log|] == log;
  }

  lemma {:induction false} FiredSometimes(log: seq<AlertId>, id: AlertId)
    ensures Fired(log, id) == 0 <==> id !in log
    decreases |log|
  {
    if log != [] {
      FiredSometimes(log[..|log| - 1], id);
      assert log == log[..|log| - 1] + [log[|log| - 1]];
    }
  }

  /** A triggered alert is spent or gone; one that is gone never comes back, because ids are fresh. */
  ghost predicate OnceAndSpent(s: State, id: AlertId) {
    Fired(s.fired, id) <= 1 && (id in s.fired && id in s.mem.alerts ==> Spent(s.mem, id))
  }

  lemma OnceStep(s: State, a: Action, id: AlertId)
    requires Enabled(s, a) && OnceAndSpent(s, id) && (a.Restart? ==> TriggerOnDisk(s, id))
    ensures OnceAndSpent(Step(s, a), id)
  {
    if a.Transact? && a.op.Reserve? && Saves(s.mem, a.op) {
      FiredAppend(s.fired, a.op.id, id);
      FiredSometimes(s.fired, id);
    }
  }

  lemma {:induction false} TriggersAtMostOnce(s: State, actions: seq<Action>, id: AlertId)
    requires Valid(s, actions) && RestartsFindTrigger(s, actions, id) && OnceAndSpent(s, id)
    ensures Fired(Run(s, actions).fired, id) <= 1
    decreases |actions|
  {
    if actions != [] {
      OnceStep(s, actions[0], id);
      TriggersAtMostOnce(Step(s, actions[0]), actions[1..], id);
    }
  }

  /**
   * However often an alert is evaluated, edited, disabled and enabled, whatever writes fail and whatever else restarts
   * lose: it triggers at most once unless a restart finds it ACTIVE or DISABLED in the file after it has triggered.
   */
  lemma FreshTriggersAtMostOnce(s: State, actions: seq<Action>, id: AlertId)
    requires Valid(s, actions) && RestartsFindTrigger(s, actions, id) && id !in s.fired
    ensures Fired(Run(s, actions).fired, id) <= 1
  {
    FiredSometimes(s.fired, id);
    TriggersAtMostOnce(s, actions, id);
  }

  /** While every write succeeds the file is never behind, so no restart loses a status or a trigger. */
  lemma {:induction false} WritesMakeDurable(s: State, actions: seq<Action>, id: AlertId)
    requires s.mem == s.disk && forall i :: 0 <= i < |actions| && actions[i].Transact? ==> actions[i].ok
    requires Valid(s, actions) && OnceAndSpent(s, id)
    ensures RestartsFindStatus(s, actions, id) && RestartsFindTrigger(s, actions, id)
    decreases |actions|
  {
    if actions != [] {
      assert forall i :: 0 <= i < |actions[1..]| ==> actions[1..][i] == actions[i + 1];
      OnceStep(s, actions[0], id);
      WritesMakeDurable(Step(s, actions[0]), actions[1..], id);
    }
  }

  // --- a trigger that a restart forgets ------------------------------------------------------------------------------

  /** An orderly run triggers the alert (again). */
  ghost predicate TriggersMore(s: State, actions: seq<Action>, id: AlertId) {
    && Valid(s, actions) && RestartsFindTrigger(s, actions, id)
    && Fired(Run(s, actions).fired, id) > Fired(s.fired, id)
  }

  lemma One(s: State, a: Action, rest: seq<Action>)
    requires Enabled(s, a) && Valid(Step(s, a), rest)
    ensures Valid(s, [a] + rest) && Run(s, [a] + rest) == Run(Step(s, a), rest)
    ensures forall id :: !a.Restart? && RestartsFindTrigger(Step(s, a), rest, id) ==> RestartsFindTrigger(s, [a] + rest, id)
  {
    assert ([a] + rest)[1..] == rest;
  }

  /** An alert held without a record can be triggered, after its owner enables it when it is DISABLED. */
  lemma HeldTriggers(s: State, id: AlertId, at: real) returns (actions: seq<Action>)
    requires id in s.mem.alerts && CountsTowardsCapacity(s.mem.alerts[id].status) && id !in s.mem.deliveries
    ensures Valid(s, actions) && TriggersMore(s, actions, id)
  {
    var reserve := Transact(Reserve(id, at), true);
    if s.mem.alerts[id].status == Active {
      FiredAppend(s.fired, id, id);
      One(s, reserve, []);
      actions := [reserve] + [];
    } else {
      var enable := Transact(Enable(id, s.mem.alerts[id].user, s.mem.alerts[id].baseline), true);
      var t := Step(s, enable);
      FiredAppend(t.fired, id, id);
      One(t, reserve, []);
      One(s, enable, [reserve] + []);
      actions := [enable] + ([reserve] + []);
    }
  }

  /** It triggered and is in memory neither ACTIVE nor DISABLED: it is gone or spent, whatever follows. */
  lemma {:induction false} NoMore(s: State, actions: seq<Action>, id: AlertId)
    requires Valid(s, actions) && RestartsFindTrigger(s, actions, id)
    requires id in s.fired && (id in s.mem.alerts ==> Spent(s.mem, id))
    ensures Fired(Run(s, actions).fired, id) == Fired(s.fired, id)
    decreases |actions|
  {
    if actions != [] {
      var a := actions[0];
      if a.Transact? && a.op.Reserve? && Saves(s.mem, a.op) { FiredAppend(s.fired, a.op.id, id); }
      NoMore(Step(s, a), actions[1..], id);
    }
  }

  /** After a restart an alert that has triggered can trigger again if and only if the file holds it ACTIVE or DISABLED. */
  lemma RetriggersExactly(s: State, id: AlertId)
    requires Inv(s) && id in s.fired
    ensures (exists actions :: TriggersMore(Step(s, Restart), actions, id)) <==>
            id in s.disk.alerts && CountsTowardsCapacity(s.disk.alerts[id].status)
  {
    var t := Step(s, Restart);
    if id in s.disk.alerts && CountsTowardsCapacity(s.disk.alerts[id].status) {
      var actions := HeldTriggers(t, id, 0.0);
      assert TriggersMore(t, actions, id);
    } else {
      forall actions | Valid(t, actions) && RestartsFindTrigger(t, actions, id) ensures !TriggersMore(t, actions, id) {
        NoMore(t, actions, id);
      }
    }
  }

  function Empty(): State {
    State(Book(map[], map[]), Book(map[], map[]), map[], [])
  }

  function Listed(user: UserId, target: Target): State {
    var book := Book(map[0 := Alert(user, target, Active, None)], map[]);
    State(book, book, map[user := 1], [])
  }

  lemma CreatedIs(user: UserId, target: Target)
    ensures var create := Transact(Create(0, Alert(user, target, Active, None), 1), true);
            && Enabled(Empty(), Raise(user, 1)) && Enabled(Step(Empty(), Raise(user, 1)), create)
            && Step(Step(Empty(), Raise(user, 1)), create) == Listed(user, target)
  {
    var s := Step(Empty(), Raise(user, 1));
    assert Held(s.mem, user) == {};
  }

  lemma ForgottenTrigger(user: UserId, target: Target, at: real)
    ensures var actions := [Transact(Reserve(0, at), false)] + ([Restart] + ([Transact(Reserve(0, at), true)] + []));
            Valid(Listed(user, target), actions) && Fired(Run(Listed(user, target), actions).fired, 0) == 2
  {
    var s := Listed(user, target);
    var lost, again := Transact(Reserve(0, at), false), Transact(Reserve(0, at), true);
    var s1 := Step(s, lost);
    assert s1.disk == s.disk && s1.fired == [] + [0] == [0];
    var s2 := Step(s1, Restart);
    FiredAppend([], 0, 0);
    FiredAppend([0], 0, 0);
    One(s2, again, []);
    One(s1, Restart, [again] + []);
    One(s, lost, [Restart] + ([again] + []));
  }

  /** From an empty book: the write of a trigger fails, the process restarts, and the alert triggers a second time. */
  lemma TriggeredTwice(user: UserId, target: Target, at: real) returns (actions: seq<Action>)
    ensures Valid(Empty(), actions) && Fired(Run(Empty(), actions).fired, 0) == 2
  {
    var create := Transact(Create(0, Alert(user, target, Active, None), 1), true);
    var rest := [Transact(Reserve(0, at), false)] + ([Restart] + ([Transact(Reserve(0, at), true)] + []));
    CreatedIs(user, target);
    ForgottenTrigger(user, target, at);
    One(Step(Empty(), Raise(user, 1)), create, rest);
    One(Empty(), Raise(user, 1), [create] + rest);
    actions := [Raise(user, 1)] + ([create] + rest);
  }

  // --- a trigger by a target that has gone ------------------------------------------------------------------------------

  predicate Rewrites(s: State, a: Action, id: AlertId) {
    a.Transact? && a.op.id == id && (a.op.Edit? || a.op.Enable?) && Saves(s.mem, a.op)
  }

  /** No restart, and nothing that gives the alert another target or baseline. */
  ghost predicate Unwritten(s: State, actions: seq<Action>, id: AlertId)
    decreases |actions|
  {
    actions == [] ||
    (!actions[0].Restart? && !Rewrites(s, actions[0], id) && Unwritten(Step(s, actions[0]), actions[1..], id))
  }

  /** A pass triggers the alert by the copy it listed, though the stored alert does not fire at this price. */
  ghost predicate StaleTrigger(s: State, actions: seq<Action>, id: AlertId, o: AlertEvaluator.Observation) {
    && id in s.mem.alerts && AlertEvaluator.Fires(s.mem.alerts[id], o)
    && Valid(s, actions) && (forall i :: 0 <= i < |actions| ==> !actions[i].Restart?)
    && var now := Run(s, actions).mem; Saves(now, Reserve(id, o.current)) && !AlertEvaluator.Fires(now.alerts[id], o)
  }

  /** A listed alert that can still be reserved is as it was listed, unless it was edited or enabled in between. */
  lemma {:induction false} ListedIsStored(s: State, actions: seq<Action>, id: AlertId, listed: Alert)
    requires Valid(s, actions) && Unwritten(s, actions, id) && id in s.mem.alerts && s.mem.alerts[id].(status := Active) == listed
    ensures var now := Run(s, actions).mem;
            id in now.alerts && (now.alerts[id].status == Active ==> now.alerts[id] == listed)
    decreases |actions|
  {
    if actions != [] {
      ListedIsStored(Step(s, actions[0]), actions[1..], id, listed);
    }
  }

  /** So an alert triggers by a target that does not fire only when it is edited or enabled during the pass. */
  lemma StaleOnlyWhenRewritten(s: State, actions: seq<Action>, id: AlertId, o: AlertEvaluator.Observation)
    requires StaleTrigger(s, actions, id, o)
    ensures !Unwritten(s, actions, id)
  {
    if Unwritten(s, actions, id) {
      AlertEvaluator.ReasonIsKind(s.mem.alerts[id], o);
      ListedIsStored(s, actions, id, s.mem.alerts[id]);
    }
  }

  /** And it does: an edit to a price that is not reached, between the listing and the reservation. */
  lemma EditedTriggers(user: UserId, target: Target, o: AlertEvaluator.Observation, price: real)
      returns (s: State, actions: seq<Action>)
    requires target.kind == PriceAbove && target.price.Some? && target.symbol == o.symbol && o.current < price
    requires o.current > 0.0 && o.previous.Some? && o.previous.value < target.price.value <= o.current
    ensures s == Listed(user, target) && StaleTrigger(s, actions, 0, o)
  {
    s := Listed(user, target);
    var edit := Transact(Edit(0, user, Some(price), target.percent, None), true);
    One(s, edit, []);
    actions := [edit] + [];
  }
}
