/**
 * Delivery of one trigger record: the attempt loop, recovery after a restart, and how often a user can be
 * notified. Every dispatch is a task of its own, and tasks, deletes, recoveries and crashes interleave freely.
 */
module AlertNotifications {
  import opened Common
  import opened AlertModel

  // --- the machine for one record ----------------------------------------------------------------------------------

  datatype Phase = Checking | Beginning | Calling | Answered(success: bool) | Exhausted
  datatype Task = Task(attempt: nat, phase: Phase)

  datatype Entry = Entry(task: nat, success: bool)

  /** The record and the status of its alert; they are in one document. */
  datatype Stored = Stored(delivery: Delivery, alert: AlertStatus)

  /** `listed` holds the copies a running recovery has read and not acted on yet; `dispatched` numbers the tasks. */
  datatype State = State(mem: Stored, disk: Stored, tasks: map<nat, Task>, listed: multiset<Delivery>, dispatched: nat,
                         log: seq<Entry>)

  /**
   * `ok` is whether the file write succeeded; a failed one is only logged, and any later write that succeeds,
   * `OtherWrite` for another alert included, stores all of memory. Recovery first lists the waiting records and then
   * acts on one copy after the other, so the record may have changed in between.
   */
  datatype Action =
    | Check(task: nat, adapter: bool, ok: bool)
    | Begin(task: nat, ok: bool)
    | Call(task: nat, success: bool)
    | Store(task: nat, ok: bool)
    | GiveUp(task: nat, ok: bool)
    | DeleteAlert(ok: bool)
    | OtherWrite
    | List
    | Recover(copy: Delivery, ok: bool)
    | Crash

  predicate InPhase(s: State, task: nat, phase: Phase) {
    task in s.tasks && s.tasks[task].phase == phase
  }

  predicate Enabled(s: State, a: Action) {
    match a
    case Check(t, _, _) => InPhase(s, t, Checking)
    case Begin(t, _) => InPhase(s, t, Beginning)
    case Call(t, _) => InPhase(s, t, Calling)
    case Store(t, _) => t in s.tasks && s.tasks[t].phase.Answered?
    case GiveUp(t, _) => InPhase(s, t, Exhausted)
    case DeleteAlert(_) => s.mem.alert == Triggered
    case OtherWrite => true
    case List => s.mem.delivery.status == Waiting
    case Recover(copy, _) => copy in s.listed
    case Crash => true
  }

  function Write(s: State, delivery: Delivery, ok: bool): State {
    var stored := s.mem.(delivery := delivery);
    s.(mem := stored, disk := if ok then stored else s.disk)
  }

  function Ended(s: State, task: nat): State {
    s.(tasks := s.tasks - {task})
  }

  function Moved(s: State, task: nat, phase: Phase): State
    requires task in s.tasks
  {
    s.(tasks := s.tasks[task := s.tasks[task].(phase := phase)])
  }

  function Dispatch(s: State): State {
    s.(tasks := s.tasks[s.dispatched := Task(1, Checking)], dispatched := s.dispatched + 1)
  }

  /** A record with a begun attempt and no recorded error has an unknown outcome. */
  predicate Resumable(delivery: Delivery) {
    delivery.attempts == 0 || delivery.failed
  }

  function Step(maxRetries: nat, s: State, a: Action): State
    requires Enabled(s, a)
  {
    var record := s.mem.delivery;
    match a
    case Check(t, adapter, ok) =>
      if record.status != Waiting then Ended(s, t)
      else if s.mem.alert != Triggered then Ended(Write(s, record.(status := Undelivered, failed := false), ok), t)
      else if !adapter then Ended(Write(s, record.(status := Undelivered, failed := true), ok), t)
      else Moved(s, t, Beginning)
    case Begin(t, ok) =>
      if record.status != Waiting then Ended(s, t)
      else Moved(Write(s, record.(attempts := record.attempts + 1), ok), t, Calling)
    case Call(t, success) => Moved(s, t, Answered(success)).(log := s.log + [Entry(t, success)])
    case Store(t, ok) =>
      if s.tasks[t].phase.success then Ended(Write(s, record.(status := Delivered, failed := false), ok), t)
      else
        var w := Write(s, record.(failed := true), ok);
        if s.tasks[t].attempt <= maxRetries
        then w.(tasks := w.tasks[t := Task(s.tasks[t].attempt + 1, Checking)])
        else Moved(w, t, Exhausted)
    case GiveUp(t, ok) => Ended(Write(s, record.(status := Undelivered, failed := true), ok), t)
    case DeleteAlert(ok) =>
      var stored := s.mem.(alert := Deleted);
      s.(mem := stored, disk := if ok then stored else s.disk)
    case OtherWrite => s.(disk := s.mem)
    case List => s.(listed := s.listed + multiset{record})
    case Recover(copy, ok) =>
      var left := s.(listed := s.listed - multiset{copy});
      if Resumable(copy) then Dispatch(left)
      else Write(left, record.(status := Undelivered, failed := true), ok)
    case Crash => s.(mem := s.disk, tasks := map[], listed := multiset{})
  }

  predicate Valid(maxRetries: nat, s: State, actions: seq<Action>)
    decreases |actions|
  {
    actions == [] || (Enabled(s, actions[0]) && Valid(maxRetries, Step(maxRetries, s, actions[0]), actions[1..]))
  }

  function Run(maxRetries: nat, s: State, actions: seq<Action>): State
    requires Valid(maxRetries, s, actions)
    decreases |actions|
  {
    if actions == [] then s else Run(maxRetries, Step(maxRetries, s, actions[0]), actions[1..])
  }

  /** The reserved trigger: a waiting record, written, with its first task dispatched. */
  function Start(at: real): State {
    var stored := Stored(Delivery(Waiting, at, 0, false), Triggered);
    Dispatch(State(stored, stored, map[], multiset{}, 0, []))
  }

  // --- how many calls --------------------------------------------------------------------------------------------

  function CallsOf(log: seq<Entry>, task: nat): nat {
    if log == [] then 0 else CallsOf(log[..|log| - 1], task) + if log[|log| - 1].task == task then 1 else 0
  }

  function CallsBelow(log: seq<Entry>, n: nat): nat {
    if n == 0 then 0 else CallsBelow(log, n - 1) + CallsOf(log, n - 1)
  }

  lemma CallsAppend(log: seq<Entry>, e: Entry, task: nat)
    ensures CallsOf(log + [e], task) == CallsOf(log, task) + if e.task == task then 1 else 0
  {
    assert (log + [e])[..|log|] == log;
  }

  lemma {:induction false} CallsBelowAppend(log: seq<Entry>, e: Entry, n: nat)
    ensures CallsBelow(log + [e], n) == CallsBelow(log, n) + if e.task < n then 1 else 0
  {
    if n > 0 {
      CallsBelowAppend(log, e, n - 1);
      CallsAppend(log, e, n - 1);
    }
  }

  /** Every call belongs to one of the dispatched tasks. */
  lemma {:induction false} AllCalls(log: seq<Entry>, n: nat)
    requires forall i :: 0 <= i < |log| ==> log[i].task < n
    ensures CallsBelow(log, n) == |log|
  {
    if log == [] {
      NoCalls(n);
    } else {
      AllCalls(log[..|log| - 1], n);
      CallsBelowAppend(log[..|log| - 1], log[|log| - 1], n);
      assert log[..|log| - 1] + [log[|log| - 1]] == log;
    }
  }

  lemma {:induction false} NoCalls(n: nat)
    ensures CallsBelow([], n) == 0
  {
    if n > 0 { NoCalls(n - 1); }
  }

  lemma {:induction false} CallsWithin(log: seq<Entry>, n: nat, each: nat)
    requires forall t: nat :: t < n ==> CallsOf(log, t) <= each
    ensures CallsBelow(log, n) <= n * each
  {
    if n > 0 {
      CallsWithin(log, n - 1, each);
      assert (n - 1) * each + each == n * each;
    }
  }

  /** A task in its k-th attempt has made at most k - 1 calls before it, and never more than the bound. */
  ghost predicate TaskOk(maxRetries: nat, s: State, t: nat) {
    && CallsOf(s.log, t) <= 1 + maxRetries
    && (t in s.tasks ==>
          var task := s.tasks[t];
          && t < s.dispatched && 1 <= task.attempt <= 1 + maxRetries
          && CallsOf(s.log, t) <= if task.phase.Answered? || task.phase.Exhausted? then task.attempt else task.attempt - 1)
    && (t >= s.dispatched ==> CallsOf(s.log, t) == 0)
  }

  ghost predicate Inv(maxRetries: nat, s: State) {
    && (forall t: nat :: TaskOk(maxRetries, s, t))
    && forall i :: 0 <= i < |s.log| ==> s.log[i].task < s.dispatched
  }

  lemma TaskStep(maxRetries: nat, s: State, a: Action, t: nat)
    requires TaskOk(maxRetries, s, t) && Enabled(s, a)
    ensures TaskOk(maxRetries, Step(maxRetries, s, a), t)
  {
    if a.Call? { CallsAppend(s.log, Entry(a.task, a.success), t); }
  }

  lemma StepKeeps(maxRetries: nat, s: State, a: Action)
    requires Inv(maxRetries, s) && Enabled(s, a)
    ensures Inv(maxRetries, Step(maxRetries, s, a))
  {
    var after := Step(maxRetries, s, a);
    forall t: nat ensures TaskOk(maxRetries, after, t) {
      assert TaskOk(maxRetries, s, t);
      TaskStep(maxRetries, s, a, t);
    }
    if a.Call? {
      assert TaskOk(maxRetries, s, a.task);
    }
  }

  function Recoveries(actions: seq<Action>): nat {
    if actions == [] then 0 else Recoveries(actions[1..]) + if actions[0].Recover? then 1 else 0
  }

  lemma {:induction false} RunKeeps(maxRetries: nat, s: State, actions: seq<Action>)
    requires Inv(maxRetries, s) && Valid(maxRetries, s, actions)
    ensures Inv(maxRetries, Run(maxRetries, s, actions))
    ensures Run(maxRetries, s, actions).dispatched <= s.dispatched + Recoveries(actions)
    decreases |actions|
  {
    if actions != [] {
      StepKeeps(maxRetries, s, actions[0]);
      RunKeeps(maxRetries, Step(maxRetries, s, actions[0]), actions[1..]);
    }
  }

  function Lists(actions: seq<Action>): nat {
    if actions == [] then 0 else Lists(actions[1..]) + if actions[0].List? then 1 else 0
  }

  /** Recovery acts on every copy that it lists at most once. */
  lemma {:induction false} RecoveriesListed(maxRetries: nat, s: State, actions: seq<Action>)
    requires Valid(maxRetries, s, actions)
    ensures Recoveries(actions) <= |s.listed| + Lists(actions)
    decreases |actions|
  {
    if actions != [] {
      RecoveriesListed(maxRetries, Step(maxRetries, s, actions[0]), actions[1..]);
    }
  }

  lemma StartOk(maxRetries: nat, at: real)
    ensures Inv(maxRetries, Start(at)) && Start(at).dispatched == 1
  {
    forall t: nat ensures TaskOk(maxRetries, Start(at), t) {
    }
  }

  /** Over `r` recoveries, whatever else happens, a record costs at most `(r + 1) * (1 + maxRetries)` calls. */
  lemma CallsBounded(maxRetries: nat, at: real, actions: seq<Action>)
    requires Valid(maxRetries, Start(at), actions)
    ensures |Run(maxRetries, Start(at), actions).log| <= (Recoveries(actions) + 1) * (1 + maxRetries)
    ensures Recoveries(actions) <= Lists(actions)
  {
    RecoveriesListed(maxRetries, Start(at), actions);
    StartOk(maxRetries, at);
    RunKeeps(maxRetries, Start(at), actions);
    var end := Run(maxRetries, Start(at), actions);
    AllCalls(end.log, end.dispatched);
    forall t: nat ensures CallsOf(end.log, t) <= 1 + maxRetries {
      assert TaskOk(maxRetries, end, t);
    }
    CallsWithin(end.log, end.dispatched, 1 + maxRetries);
    Monotone(end.dispatched, Recoveries(actions) + 1, 1 + maxRetries);
  }

  lemma Monotone(x: nat, y: nat, k: nat)
    requires x <= y
    ensures x * k <= y * k
  {
    assert (y - x) * k >= 0;
  }

  // --- how many notifications --------------------------------------------------------------------------------------

  function Successes(log: seq<Entry>): nat {
    if log == [] then 0 else Successes(log[..|log| - 1]) + if log[|log| - 1].success then 1 else 0
  }

  lemma SuccessAppend(log: seq<Entry>, e: Entry)
    ensures Successes(log + [e]) == Successes(log) + if e.success then 1 else 0
  {
    assert (log + [e])[..|log|] == log;
  }

  /** The task can still call the platform, from this state and without a crash. */
  predicate CanCall(maxRetries: nat, s: State, t: nat) {
    t in s.tasks &&
    match s.tasks[t].phase
    case Calling => true
    case Beginning => s.mem.delivery.status == Waiting
    case Checking => s.mem.delivery.status == Waiting && s.mem.alert == Triggered
    case Answered(success) =>
      !success && s.tasks[t].attempt <= maxRetries && s.mem.delivery.status == Waiting && s.mem.alert == Triggered
    case Exhausted => false
  }

  /** The task is in its last attempt, and that has failed. */
  predicate AtItsEnd(maxRetries: nat, task: Task) {
    task.phase == Exhausted || (task.phase == Answered(false) && task.attempt > maxRetries)
  }

  /** Recovery dispatches a second task for a waiting record of a TRIGGERED alert, while a first one is not at its end. */
  predicate Doubles(maxRetries: nat, s: State, a: Action) {
    && a.Recover? && Resumable(a.copy) && s.mem.delivery.status == Waiting && s.mem.alert == Triggered
    && exists t :: t in s.tasks && !AtItsEnd(maxRetries, s.tasks[t])
  }

  /** No crash, and no recovery that dispatches a second task. */
  predicate Calm(maxRetries: nat, s: State, actions: seq<Action>)
    requires Valid(maxRetries, s, actions)
    decreases |actions|
  {
    actions == [] ||
    (!actions[0].Crash? && !Doubles(maxRetries, s, actions[0]) &&
     Calm(maxRetries, Step(maxRetries, s, actions[0]), actions[1..]))
  }

  /** Either one call has succeeded and no task can call any more, or none has and at most one task can. */
  ghost predicate Single(maxRetries: nat, s: State) {
    && (forall t :: t in s.tasks ==> t < s.dispatched)
    && (forall t, u | CanCall(maxRetries, s, t) && CanCall(maxRetries, s, u) :: t == u)
    && Successes(s.log) <= 1
    && (Successes(s.log) == 1 ==> forall t :: !CanCall(maxRetries, s, t))
    && (forall t :: InPhase(s, t, Answered(true)) ==> Successes(s.log) == 1)
    && (Successes(s.log) == 1 && s.mem.delivery.status == Waiting ==> exists t :: InPhase(s, t, Answered(true)))
  }

  /** Only a call that is reported adds a success, and only recovery adds a task that can call. */
  lemma CallersShrink(maxRetries: nat, s: State, a: Action, t: nat)
    requires Enabled(s, a) && !a.Crash? && CanCall(maxRetries, Step(maxRetries, s, a), t)
    ensures CanCall(maxRetries, s, t) || (a.Recover? && Resumable(a.copy) && t == s.dispatched)
  {
  }

  lemma AcceptedBefore(maxRetries: nat, s: State, a: Action)
    requires Enabled(s, a)
    ensures forall t :: InPhase(Step(maxRetries, s, a), t, Answered(true)) ==>
              InPhase(s, t, Answered(true)) || (a.Call? && a.success && t == a.task)
  {
  }

  lemma SingleCall(maxRetries: nat, s: State, a: Action)
    requires Single(maxRetries, s) && Enabled(s, a) && a.Call?
    ensures Single(maxRetries, Step(maxRetries, s, a))
  {
    var after := Step(maxRetries, s, a);
    assert CanCall(maxRetries, s, a.task);
    SuccessAppend(s.log, Entry(a.task, a.success));
    forall t | CanCall(maxRetries, after, t) ensures t == a.task && !a.success {
      CallersShrink(maxRetries, s, a, t);
    }
    AcceptedBefore(maxRetries, s, a);
    assert InPhase(after, a.task, Answered(a.success));
  }

  lemma SingleRecover(maxRetries: nat, s: State, a: Action)
    requires Single(maxRetries, s) && Enabled(s, a) && a.Recover? && !Doubles(maxRetries, s, a)
    ensures Single(maxRetries, Step(maxRetries, s, a))
  {
    var after := Step(maxRetries, s, a);
    forall t | CanCall(maxRetries, after, t) ensures CanCall(maxRetries, s, t) || (Resumable(a.copy) && t == s.dispatched) {
      CallersShrink(maxRetries, s, a, t);
    }
    AcceptedBefore(maxRetries, s, a);
    forall t | InPhase(s, t, Answered(true)) ensures InPhase(after, t, Answered(true)) {
    }
  }

  lemma SingleOther(maxRetries: nat, s: State, a: Action)
    requires Single(maxRetries, s) && Enabled(s, a) && !a.Crash? && !a.Call? && !a.Recover?
    ensures Single(maxRetries, Step(maxRetries, s, a))
  {
    var after := Step(maxRetries, s, a);
    forall t | CanCall(maxRetries, after, t) ensures CanCall(maxRetries, s, t) {
      CallersShrink(maxRetries, s, a, t);
    }
    AcceptedBefore(maxRetries, s, a);
    if after.mem.delivery.status == Waiting {
      forall t | InPhase(s, t, Answered(true)) ensures InPhase(after, t, Answered(true)) {
      }
    }
  }

  lemma {:induction false} SingleRun(maxRetries: nat, s: State, actions: seq<Action>)
    requires Single(maxRetries, s) && Valid(maxRetries, s, actions) && Calm(maxRetries, s, actions)
    ensures Single(maxRetries, Run(maxRetries, s, actions))
    decreases |actions|
  {
    if actions != [] {
      var a := actions[0];
      if a.Call? {
        SingleCall(maxRetries, s, a);
      } else if a.Recover? {
        SingleRecover(maxRetries, s, a);
      } else {
        SingleOther(maxRetries, s, a);
      }
      SingleRun(maxRetries, Step(maxRetries, s, a), actions[1..]);
    }
  }

  /** Without a crash, and without a recovery that dispatches a second task, at most one call reports success. */
  lemma NotifiedAtMostOnce(maxRetries: nat, at: real, actions: seq<Action>)
    requires Valid(maxRetries, Start(at), actions) && Calm(maxRetries, Start(at), actions)
    ensures Successes(Run(maxRetries, Start(at), actions).log) <= 1
  {
    SingleRun(maxRetries, Start(at), actions);
  }

  lemma One(maxRetries: nat, s: State, a: Action, rest: seq<Action>)
    requires Enabled(s, a) && Valid(maxRetries, Step(maxRetries, s, a), rest)
    ensures Valid(maxRetries, s, [a] + rest)
    ensures Run(maxRetries, s, [a] + rest) == Run(maxRetries, Step(maxRetries, s, a), rest)
    ensures Calm(maxRetries, s, [a] + rest) <==>
            !a.Crash? && !Doubles(maxRetries, s, a) && Calm(maxRetries, Step(maxRetries, s, a), rest)
  {
    assert ([a] + rest)[1..] == rest;
  }

  lemma {:induction false} Then(maxRetries: nat, s: State, first: seq<Action>, rest: seq<Action>)
    requires Valid(maxRetries, s, first) && Valid(maxRetries, Run(maxRetries, s, first), rest)
    ensures Valid(maxRetries, s, first + rest)
    ensures Run(maxRetries, s, first + rest) == Run(maxRetries, Run(maxRetries, s, first), rest)
    ensures Calm(maxRetries, s, first + rest) <==>
            Calm(maxRetries, s, first) && Calm(maxRetries, Run(maxRetries, s, first), rest)
    decreases |first|
  {
    if first == [] {
      assert first + rest == rest;
    } else {
      Then(maxRetries, Step(maxRetries, s, first[0]), first[1..], rest);
      One(maxRetries, s, first[0], first[1..] + rest);
      HeadFirst(first, rest);
    }
  }

  lemma HeadFirst(first: seq<Action>, rest: seq<Action>)
    requires first != []
    ensures [first[0]] + (first[1..] + rest) == first + rest
  {
  }

  /** One full attempt, up to an accepted call. */
  function Accepted(t: nat): seq<Action> {
    [Check(t, true, true)] + ([Begin(t, true)] + ([Call(t, true)] + []))
  }

  lemma Attempt(maxRetries: nat, s: State, t: nat)
    requires InPhase(s, t, Checking) && s.mem.delivery.status == Waiting && s.mem.alert == Triggered
    ensures Valid(maxRetries, s, Accepted(t)) && Calm(maxRetries, s, Accepted(t))
    ensures var end := Run(maxRetries, s, Accepted(t));
            && Successes(end.log) == Successes(s.log) + 1
            && end.mem.delivery.status == Waiting && end.mem.alert == Triggered
            && forall u :: u in s.tasks && u != t ==> u in end.tasks && end.tasks[u] == s.tasks[u]
  {
    var s1 := Step(maxRetries, s, Check(t, true, true));
    var s2 := Step(maxRetries, s1, Begin(t, true));
    SuccessAppend(s.log, Entry(t, true));
    One(maxRetries, s2, Call(t, true), []);
    One(maxRetries, s1, Begin(t, true), [Call(t, true)] + []);
    One(maxRetries, s, Check(t, true, true), [Begin(t, true)] + ([Call(t, true)] + []));
  }

  /** A task that can call is brought to an accepted call. */
  lemma CallerSucceeds(maxRetries: nat, s: State, t: nat) returns (actions: seq<Action>)
    requires CanCall(maxRetries, s, t)
    ensures Valid(maxRetries, s, actions) && Calm(maxRetries, s, actions)
    ensures Successes(Run(maxRetries, s, actions).log) == Successes(s.log) + 1
  {
    match s.tasks[t].phase
    case Calling =>
      SuccessAppend(s.log, Entry(t, true));
      One(maxRetries, s, Call(t, true), []);
      actions := [Call(t, true)] + [];
    case Beginning =>
      var s1 := Step(maxRetries, s, Begin(t, true));
      SuccessAppend(s.log, Entry(t, true));
      One(maxRetries, s1, Call(t, true), []);
      One(maxRetries, s, Begin(t, true), [Call(t, true)] + []);
      actions := [Begin(t, true)] + ([Call(t, true)] + []);
    case Checking =>
      Attempt(maxRetries, s, t);
      actions := Accepted(t);
    case Answered(_) =>
      Attempt(maxRetries, Step(maxRetries, s, Store(t, true)), t);
      One(maxRetries, s, Store(t, true), Accepted(t));
      actions := [Store(t, true)] + Accepted(t);
  }

  /** A calm continuation in which the user has been notified twice. */
  ghost predicate Twice(maxRetries: nat, s: State, actions: seq<Action>) {
    Valid(maxRetries, s, actions) && Calm(maxRetries, s, actions) && Successes(Run(maxRetries, s, actions).log) >= 2
  }

  /**
   * The condition is exact. After a recovery in a state that a calm run has reached, some calm continuation notifies
   * the user twice if and only if the recovery dispatched a second task for a waiting record of a TRIGGERED alert
   * while the first one was not at its end.
   */
  lemma DoubledExactly(maxRetries: nat, s: State, a: Action)
    requires Single(maxRetries, s) && Enabled(s, a) && a.Recover?
    ensures (exists actions :: Twice(maxRetries, Step(maxRetries, s, a), actions)) <==> Doubles(maxRetries, s, a)
  {
    var u := Step(maxRetries, s, a);
    if Doubles(maxRetries, s, a) {
      var t :| t in s.tasks && !AtItsEnd(maxRetries, s.tasks[t]);
      var first := Accepted(s.dispatched);
      Attempt(maxRetries, u, s.dispatched);
      if s.tasks[t].phase == Answered(true) {
        assert InPhase(s, t, Answered(true));
        assert Twice(maxRetries, u, first);
      } else {
        var v := Run(maxRetries, u, first);
        var rest := CallerSucceeds(maxRetries, v, t);
        Then(maxRetries, u, first, rest);
        assert Twice(maxRetries, u, first + rest);
      }
    } else {
      SingleRecover(maxRetries, s, a);
      forall actions | Valid(maxRetries, u, actions) && Calm(maxRetries, u, actions) ensures !Twice(maxRetries, u, actions) {
        SingleRun(maxRetries, u, actions);
      }
    }
  }

  /** Two tasks for one record, the first one dispatched at once and the second by a recovery. */
  lemma BothSucceed(maxRetries: nat, s: State)
    requires InPhase(s, 0, Checking) && InPhase(s, 1, Checking) && s.mem.delivery.status == Waiting
    requires s.mem.alert == Triggered
    ensures Valid(maxRetries, s, Accepted(0) + Accepted(1))
    ensures Successes(Run(maxRetries, s, Accepted(0) + Accepted(1)).log) == Successes(s.log) + 2
  {
    Attempt(maxRetries, s, 0);
    Attempt(maxRetries, Run(maxRetries, s, Accepted(0)), 1);
    Then(maxRetries, s, Accepted(0), Accepted(1));
  }

  /** From the start: administration starts recovery while the first task is dispatched, and both tasks succeed. */
  lemma RecoveryDuringDispatch(maxRetries: nat, at: real)
    ensures var actions := [List] + ([Recover(Delivery(Waiting, at, 0, false), true)] + (Accepted(0) + Accepted(1)));
            Valid(maxRetries, Start(at), actions) && Successes(Run(maxRetries, Start(at), actions).log) == 2
  {
    var copy := Delivery(Waiting, at, 0, false);
    var s1 := Step(maxRetries, Start(at), List);
    var s2 := Step(maxRetries, s1, Recover(copy, true));
    var rest := Accepted(0) + Accepted(1);
    BothSucceed(maxRetries, s2);
    One(maxRetries, s1, Recover(copy, true), rest);
    One(maxRetries, Start(at), List, [Recover(copy, true)] + rest);
  }

  /** Recovery can act on a copy that is out of date: it closes as FAILED what has been delivered since. */
  lemma StaleCopyOverwritesDelivered(maxRetries: nat, at: real)
    ensures var copy := Delivery(Waiting, at, 1, false);
            var actions := [Check(0, true, true)] + ([Begin(0, true)] + ([List] + ([Call(0, true)] + ([Store(0, true)] +
                           ([Recover(copy, true)] + [])))));
            && Valid(maxRetries, Start(at), actions) && Successes(Run(maxRetries, Start(at), actions).log) == 1
            && Run(maxRetries, Start(at), actions).mem.delivery.status == Undelivered
  {
    var copy := Delivery(Waiting, at, 1, false);
    var s1 := Step(maxRetries, Start(at), Check(0, true, true));
    var s2 := Step(maxRetries, s1, Begin(0, true));
    assert s2.mem.delivery == copy;
    var s3 := Step(maxRetries, s2, List);
    var s4 := Step(maxRetries, s3, Call(0, true));
    var s5 := Step(maxRetries, s4, Store(0, true));
    SuccessAppend([], Entry(0, true));
    assert s5.log == [] + [Entry(0, true)];
    One(maxRetries, s5, Recover(copy, true), []);
    One(maxRetries, s4, Store(0, true), [Recover(copy, true)] + []);
    One(maxRetries, s3, Call(0, true), [Store(0, true)] + ([Recover(copy, true)] + []));
    One(maxRetries, s2, List, [Call(0, true)] + ([Store(0, true)] + ([Recover(copy, true)] + [])));
    One(maxRetries, s1, Begin(0, true), [List] + ([Call(0, true)] + ([Store(0, true)] + ([Recover(copy, true)] + []))));
    One(maxRetries, Start(at), Check(0, true, true),
        [Begin(0, true)] + ([List] + ([Call(0, true)] + ([Store(0, true)] + ([Recover(copy, true)] + [])))));
  }

  // --- what the record says --------------------------------------------------------------------------------------------

  /** DELIVERED only after a successful call, and closed without an error only when the alert is gone. */
  predicate Truthful(stored: Stored, log: seq<Entry>) {
    && (stored.delivery.status == Delivered ==> Successes(log) > 0)
    && (stored.delivery.status == Undelivered && !stored.delivery.failed ==> stored.alert == Deleted)
    && (stored.alert == Triggered || stored.alert == Deleted)
  }

  ghost predicate AllTruthful(s: State) {
    && Truthful(s.mem, s.log) && Truthful(s.disk, s.log)
    && forall t :: InPhase(s, t, Answered(true)) ==> Successes(s.log) > 0
  }

  lemma TruthfulStep(maxRetries: nat, s: State, a: Action)
    requires AllTruthful(s) && Enabled(s, a)
    ensures AllTruthful(Step(maxRetries, s, a))
  {
    if a.Call? { SuccessAppend(s.log, Entry(a.task, a.success)); }
    assert a.Store? && s.tasks[a.task].phase.success ==> InPhase(s, a.task, Answered(true));
    AcceptedBefore(maxRetries, s, a);
  }

  /**
   * In every run, crashes, recoveries, deletes and failed writes included, in memory and in the file: a DELIVERED record
   * has been delivered, and an UNDELIVERED one without an error is one whose alert was deleted.
   */
  lemma {:induction false} RecordIsTruthful(maxRetries: nat, s: State, actions: seq<Action>)
    requires AllTruthful(s) && Valid(maxRetries, s, actions)
    ensures AllTruthful(Run(maxRetries, s, actions))
    decreases |actions|
  {
    if actions != [] {
      TruthfulStep(maxRetries, s, actions[0]);
      RecordIsTruthful(maxRetries, Step(maxRetries, s, actions[0]), actions[1..]);
    }
  }

  /** One task delivers: no crash, and no recovery acts. */
  predicate OneTask(actions: seq<Action>) {
    forall i :: 0 <= i < |actions| ==> !actions[i].Crash? && !actions[i].Recover?
  }

  predicate LastSucceeded(log: seq<Entry>) {
    log != [] && log[|log| - 1].success
  }

  /** Where the one task stands, and what the record says about it. */
  ghost predicate Progress(maxRetries: nat, s: State) {
    var record := s.mem.delivery;
    && (s.mem.alert == Triggered || s.mem.alert == Deleted)
    && (forall t :: t in s.tasks ==> t == 0)
    && record.attempts == |s.log| + (if InPhase(s, 0, Calling) then 1 else 0)
    && (if 0 in s.tasks then
          var task := s.tasks[0];
          && record.status == Waiting && 1 <= task.attempt <= 1 + maxRetries
          && (record.failed <==> task.attempt > 1 || task.phase.Exhausted?)
          && |s.log| == (if task.phase.Answered? || task.phase.Exhausted? then task.attempt else task.attempt - 1)
          && (task.phase.Answered? ==> LastSucceeded(s.log) == task.phase.success)
          && (task.phase.Exhausted? ==> task.attempt == 1 + maxRetries)
          && (!task.phase.Answered? ==> !LastSucceeded(s.log))
        else
          && record.status != Waiting && (record.status == Delivered <==> LastSucceeded(s.log))
          && (record.status == Delivered ==> !record.failed)
          && (record.status == Undelivered && !record.failed ==> s.mem.alert == Deleted))
  }

  lemma ProgressStep(maxRetries: nat, s: State, a: Action)
    requires Progress(maxRetries, s) && Enabled(s, a) && !a.Crash? && !a.Recover?
    ensures Progress(maxRetries, Step(maxRetries, s, a))
  {
  }

  lemma {:induction false} ProgressRun(maxRetries: nat, s: State, actions: seq<Action>)
    requires Progress(maxRetries, s) && Valid(maxRetries, s, actions) && OneTask(actions)
    ensures Progress(maxRetries, Run(maxRetries, s, actions))
    decreases |actions|
  {
    if actions != [] {
      ProgressStep(maxRetries, s, actions[0]);
      assert forall i :: 0 <= i < |actions[1..]| ==> actions[1..][i] == actions[i + 1];
      ProgressRun(maxRetries, Step(maxRetries, s, actions[0]), actions[1..]);
    }
  }

  /**
   * The first task by itself, whatever is deleted and whichever writes fail: when it has ended, the record is closed,
   * DELIVERED exactly if its last call succeeded, without an error only then or for a deleted alert; and at every
   * moment each call, and nothing else, has been counted.
   */
  lemma EndTellsTheTruth(maxRetries: nat, at: real, actions: seq<Action>)
    requires Valid(maxRetries, Start(at), actions) && OneTask(actions)
    ensures var s := Run(maxRetries, Start(at), actions);
            && s.mem.delivery.attempts == |s.log| + (if InPhase(s, 0, Calling) then 1 else 0)
            && (s.tasks == map[] ==>
                  && s.mem.delivery.status != Waiting && (s.mem.delivery.status == Delivered <==> LastSucceeded(s.log))
                  && (s.mem.delivery.status == Delivered ==> !s.mem.delivery.failed)
                  && (s.mem.delivery.status == Undelivered && !s.mem.delivery.failed ==> s.mem.alert == Deleted))
            && (s.tasks != map[] ==> s.mem.delivery.status == Waiting)
  {
    ProgressRun(maxRetries, Start(at), actions);
  }

  /** A book in which the alert and its record are these. */
  predicate InBook(book: Book, id: AlertId, stored: Stored) {
    && id in book.alerts && book.alerts[id].status == stored.alert
    && id in book.deliveries && book.deliveries[id] == stored.delivery
  }

  /** What a step does to the record is one of the transactions of the alert service. */
  function TransactionOf(maxRetries: nat, s: State, a: Action, id: AlertId, user: UserId): Option<Op>
    requires Enabled(s, a)
  {
    var waiting := s.mem.delivery.status == Waiting;
    match a
    case Check(_, adapter, _) =>
      if !waiting || (s.mem.alert == Triggered && adapter) then None
      else Some(MarkUndeliverable(id, s.mem.alert == Triggered))
    case Begin(_, _) => Some(BeginAttempt(id))
    case Store(t, _) => Some(if s.tasks[t].phase.success then MarkSent(id) else RecordFailure(id))
    case GiveUp(_, _) => Some(MarkUndeliverable(id, true))
    case DeleteAlert(_) => Some(Remove(id, user))
    case Recover(copy, _) => if Resumable(copy) then None else Some(MarkUndeliverable(id, true))
    case _ => None
  }

  /** So the machine of one record is the document machine seen at one alert. */
  lemma StepIsTransaction(maxRetries: nat, s: State, a: Action, book: Book, id: AlertId)
    requires Enabled(s, a) && !a.Crash? && InBook(book, id, s.mem)
    ensures var op := TransactionOf(maxRetries, s, a, id, book.alerts[id].user);
            InBook(if op.Some? then Apply(book, op.value) else book, id, Step(maxRetries, s, a).mem)
  {
    var op := TransactionOf(maxRetries, s, a, id, book.alerts[id].user);
    if op.Some? {
      TransactionSaves(maxRetries, s, a, book, id);
    }
  }

  lemma TransactionSaves(maxRetries: nat, s: State, a: Action, book: Book, id: AlertId)
    requires Enabled(s, a) && !a.Crash? && InBook(book, id, s.mem)
    requires TransactionOf(maxRetries, s, a, id, book.alerts[id].user).Some?
    ensures Saves(book, TransactionOf(maxRetries, s, a, id, book.alerts[id].user).value) <==>
            a.Begin? ==> s.mem.delivery.status == Waiting
  {
  }

  predicate WritesAre(a: Action, succeeding: bool) {
    match a
    case Check(_, _, ok) => ok == succeeding
    case Begin(_, ok) => ok == succeeding
    case Store(_, ok) => ok == succeeding
    case GiveUp(_, ok) => ok == succeeding
    case DeleteAlert(ok) => ok == succeeding
    case Recover(_, ok) => ok == succeeding
    case OtherWrite => succeeding
    case _ => true
  }

  /** While writes fail the file stays as it is. */
  lemma {:induction false} FailedWritesKeepFile(maxRetries: nat, s: State, actions: seq<Action>)
    requires Valid(maxRetries, s, actions) && forall i :: 0 <= i < |actions| ==> WritesAre(actions[i], false)
    ensures Run(maxRetries, s, actions).disk == s.disk
    decreases |actions|
  {
    if actions != [] {
      assert forall i :: 0 <= i < |actions[1..]| ==> actions[1..][i] == actions[i + 1];
      FailedWritesKeepFile(maxRetries, Step(maxRetries, s, actions[0]), actions[1..]);
    }
  }

  /** While writes succeed the file has what memory has. */
  lemma {:induction false} WritesMakeDurable(maxRetries: nat, s: State, actions: seq<Action>)
    requires s.mem == s.disk && Valid(maxRetries, s, actions)
    requires forall i :: 0 <= i < |actions| ==> WritesAre(actions[i], true)
    ensures Run(maxRetries, s, actions).mem == Run(maxRetries, s, actions).disk
    decreases |actions|
  {
    if actions != [] {
      assert forall i :: 0 <= i < |actions[1..]| ==> actions[1..][i] == actions[i + 1];
      WritesMakeDurable(maxRetries, Step(maxRetries, s, actions[0]), actions[1..]);
    }
  }

  // --- crashes ---------------------------------------------------------------------------------------------------------

  /** No task and no recovery, the file as in memory: the state after a restart. */
  predicate Restarted(s: State) {
    s.tasks == map[] && s.listed == multiset{} && s.mem == s.disk
  }

  /** Recovery dispatches no task for this record. */
  predicate Barren(delivery: Delivery) {
    delivery.status != Waiting || !Resumable(delivery)
  }

  /** No task runs, and recovery dispatches none. */
  ghost predicate Quiet(s: State) {
    && s.tasks == map[] && Barren(s.mem.delivery) && Barren(s.disk.delivery)
    && forall copy :: copy in s.listed ==> copy.status == Waiting && Barren(copy)
  }

  /** The alert is gone, and tasks end at their first check. */
  ghost predicate Gone(s: State) {
    s.mem.alert != Triggered && s.disk.alert != Triggered && forall t :: t in s.tasks ==> s.tasks[t].phase == Checking
  }

  ghost predicate Silent(s: State) {
    Quiet(s) || Gone(s)
  }

  lemma QuietStep(maxRetries: nat, s: State, a: Action)
    requires Quiet(s) && Enabled(s, a)
    ensures Quiet(Step(maxRetries, s, a)) && Step(maxRetries, s, a).log == s.log
  {
  }

  lemma GoneStep(maxRetries: nat, s: State, a: Action)
    requires Gone(s) && Enabled(s, a)
    ensures Gone(Step(maxRetries, s, a)) && Step(maxRetries, s, a).log == s.log
  {
  }

  lemma {:induction false} SilentForever(maxRetries: nat, s: State, actions: seq<Action>)
    requires Silent(s) && Valid(maxRetries, s, actions)
    ensures Run(maxRetries, s, actions).log == s.log
    decreases |actions|
  {
    if actions != [] {
      if Quiet(s) {
        QuietStep(maxRetries, s, actions[0]);
      } else {
        GoneStep(maxRetries, s, actions[0]);
      }
      SilentForever(maxRetries, Step(maxRetries, s, actions[0]), actions[1..]);
    }
  }

  ghost predicate Notifies(maxRetries: nat, s: State, actions: seq<Action>) {
    Valid(maxRetries, s, actions) && Successes(Run(maxRetries, s, actions).log) > Successes(s.log)
  }

  /** Recovery after a restart: list the record, dispatch it, and an accepted first attempt. */
  function Resumed(s: State): seq<Action> {
    [List] + ([Recover(s.mem.delivery, true)] + Accepted(s.dispatched))
  }

  lemma ResumedNotifies(maxRetries: nat, s: State)
    requires s.mem.delivery.status == Waiting && Resumable(s.mem.delivery) && s.mem.alert == Triggered
    ensures Valid(maxRetries, s, Resumed(s)) && Successes(Run(maxRetries, s, Resumed(s)).log) == Successes(s.log) + 1
  {
    var s1 := Step(maxRetries, s, List);
    var s2 := Step(maxRetries, s1, Recover(s.mem.delivery, true));
    Attempt(maxRetries, s2, s.dispatched);
    One(maxRetries, s1, Recover(s.mem.delivery, true), Accepted(s.dispatched));
    One(maxRetries, s, List, [Recover(s.mem.delivery, true)] + Accepted(s.dispatched));
  }

  /**
   * After a restart the user can be notified (again) exactly when the record is waiting for a TRIGGERED alert and
   * either no attempt was begun or an error was recorded.
   */
  lemma ResentExactlyWhen(maxRetries: nat, s: State)
    requires Restarted(s)
    ensures (exists actions :: Notifies(maxRetries, s, actions)) <==>
            s.mem.delivery.status == Waiting && Resumable(s.mem.delivery) && s.mem.alert == Triggered
  {
    if s.mem.delivery.status == Waiting && Resumable(s.mem.delivery) && s.mem.alert == Triggered {
      ResumedNotifies(maxRetries, s);
      assert Notifies(maxRetries, s, Resumed(s));
    } else {
      forall actions | Valid(maxRetries, s, actions) ensures !Notifies(maxRetries, s, actions) {
        SilentForever(maxRetries, s, actions);
      }
    }
  }

  /** A crash anywhere in the first attempt, once its start was written, never leads to another call. */
  lemma FirstAttemptNeverResent(maxRetries: nat, s: State, actions: seq<Action>)
    requires s.disk.delivery.status == Waiting && s.disk.delivery.attempts == 1 && !s.disk.delivery.failed
    requires Valid(maxRetries, Step(maxRetries, s, Crash), actions)
    ensures Run(maxRetries, Step(maxRetries, s, Crash), actions).log == s.log
  {
    SilentForever(maxRetries, Step(maxRetries, s, Crash), actions);
  }

  /** The first attempt of the first task fails, and the second one begins. */
  function SecondAttempt(): seq<Action> {
    [Check(0, true, true)] + ([Begin(0, true)] + ([Call(0, false)] + ([Store(0, true)] + ([Check(0, true, true)] + []))))
  }

  lemma SecondAttemptReached(maxRetries: nat, at: real)
    requires maxRetries >= 1
    ensures Valid(maxRetries, Start(at), SecondAttempt())
    ensures var s := Run(maxRetries, Start(at), SecondAttempt());
            && InPhase(s, 0, Beginning) && s.mem == s.disk == Stored(Delivery(Waiting, at, 1, true), Triggered)
            && Successes(s.log) == 0
  {
    var s1 := Step(maxRetries, Start(at), Check(0, true, true));
    var s2 := Step(maxRetries, s1, Begin(0, true));
    var s3 := Step(maxRetries, s2, Call(0, false));
    var s4 := Step(maxRetries, s3, Store(0, true));
    SuccessAppend([], Entry(0, false));
    assert s4.log == [] + [Entry(0, false)];
    One(maxRetries, s4, Check(0, true, true), []);
    One(maxRetries, s3, Store(0, true), [Check(0, true, true)] + []);
    One(maxRetries, s2, Call(0, false), [Store(0, true)] + ([Check(0, true, true)] + []));
    One(maxRetries, s1, Begin(0, true), [Call(0, false)] + ([Store(0, true)] + ([Check(0, true, true)] + [])));
    One(maxRetries, Start(at), Check(0, true, true),
        [Begin(0, true)] + ([Call(0, false)] + ([Store(0, true)] + ([Check(0, true, true)] + []))));
  }

  lemma CrashAfterStaleError(maxRetries: nat, s: State, t: nat) returns (actions: seq<Action>)
    requires InPhase(s, t, Beginning) && s.mem == s.disk && s.mem.alert == Triggered
    requires s.mem.delivery.status == Waiting && s.mem.delivery.failed
    ensures Valid(maxRetries, s, actions) && Successes(Run(maxRetries, s, actions).log) == Successes(s.log) + 2
  {
    var s1 := Step(maxRetries, s, Begin(t, true));
    var s2 := Step(maxRetries, s1, Call(t, true));
    SuccessAppend(s.log, Entry(t, true));
    var s3 := Step(maxRetries, s2, Crash);
    ResumedNotifies(maxRetries, s3);
    One(maxRetries, s2, Crash, Resumed(s3));
    One(maxRetries, s1, Call(t, true), [Crash] + Resumed(s3));
    One(maxRetries, s, Begin(t, true), [Call(t, true)] + ([Crash] + Resumed(s3)));
    actions := [Begin(t, true)] + ([Call(t, true)] + ([Crash] + Resumed(s3)));
  }

  /**
   * A later attempt has no such protection: its start does not clear the error of the attempt before, so a crash
   * between its accepted call and the write of SENT is followed by a second notification, even when every write
   * succeeds.
   */
  lemma StaleErrorResends(maxRetries: nat, at: real) returns (rest: seq<Action>)
    requires maxRetries >= 1
    ensures Valid(maxRetries, Start(at), SecondAttempt() + rest)
    ensures Successes(Run(maxRetries, Start(at), SecondAttempt() + rest).log) == 2
  {
    SecondAttemptReached(maxRetries, at);
    rest := CrashAfterStaleError(maxRetries, Run(maxRetries, Start(at), SecondAttempt()), 0);
    Then(maxRetries, Start(at), SecondAttempt(), rest);
  }

  // --- the loops ---------------------------------------------------------------------------------------------------------

  /** What one undisturbed delivery sees before its k-th attempt, and the answer it would get. */
  datatype World = World(alert: nat -> AlertStatus, adapter: nat -> bool, answers: nat -> bool)

  predicate Reaches(w: World, k: nat) {
    forall i: nat :: 1 <= i <= k ==> w.alert(i) == Triggered && w.adapter(i)
  }

  class AlertNotificationService {
    const maxRetries: nat
    var deliveries: map<AlertId, Delivery>

    constructor (maxRetries: nat, deliveries: map<AlertId, Delivery>)
      ensures this.maxRetries == maxRetries && this.deliveries == deliveries
    {
      this.maxRetries, this.deliveries := maxRetries, deliveries;
    }

    /**
     * The attempt loop run alone: at most `1 + maxRetries` calls, each failed one counted, and a terminal record:
     * DELIVERED exactly when the last call succeeded.
     */
    method Deliver(id: AlertId, world: World) returns (calls: nat)
      modifies this`deliveries
      ensures calls <= 1 + maxRetries
      ensures id in deliveries ==> deliveries[id].status != Waiting
      ensures deliveries.Keys == old(deliveries).Keys
      ensures forall other :: other in deliveries && other != id ==> deliveries[other] == old(deliveries)[other]
      ensures id !in old(deliveries) || old(deliveries)[id].status != Waiting ==> calls == 0 && deliveries == old(deliveries)
      ensures id in old(deliveries) && old(deliveries)[id].status == Waiting ==>
                && deliveries[id].attempts == old(deliveries)[id].attempts + calls && Reaches(world, calls)
                && (forall k: nat :: 1 <= k < calls ==> !world.answers(k))
                && (deliveries[id].status == Delivered <==> calls > 0 && world.answers(calls))
                && (calls < 1 + maxRetries && deliveries[id].status != Delivered ==>
                      world.alert(calls + 1) != Triggered || !world.adapter(calls + 1))
    {
      calls := 0;
      var attempt := 1;
      while attempt <= maxRetries + 1
        invariant 1 <= attempt <= maxRetries + 2 && calls == attempt - 1
        invariant deliveries.Keys == old(deliveries).Keys
        invariant forall other :: other in deliveries && other != id ==> deliveries[other] == old(deliveries)[other]
        invariant attempt == 1 ==> deliveries == old(deliveries)
        invariant attempt > 1 ==> id in deliveries && deliveries[id].status == Waiting && old(deliveries)[id].status == Waiting
        invariant id in deliveries ==> deliveries[id].attempts == old(deliveries)[id].attempts + calls
        invariant Reaches(world, calls) && forall k: nat :: 1 <= k <= calls ==> !world.answers(k)
      {
        if id !in deliveries || deliveries[id].status != Waiting { return; }
        var current := deliveries[id];
        if world.alert(attempt) != Triggered {
          deliveries := deliveries[id := current.(status := Undelivered, failed := false)];
          return;
        }
        if !world.adapter(attempt) {
          deliveries := deliveries[id := current.(status := Undelivered, failed := true)];
          return;
        }
        deliveries := deliveries[id := current.(attempts := current.attempts + 1)];
        calls := calls + 1;
        if world.answers(attempt) {
          deliveries := deliveries[id := deliveries[id].(status := Delivered, failed := false)];
          return;
        }
        deliveries := deliveries[id := deliveries[id].(failed := true)];
        attempt := attempt + 1;
      }
      deliveries := deliveries[id := deliveries[id].(status := Undelivered, failed := true)];
    }

    /** Every waiting record is either resumed or closed as unknown; the rest is untouched. */
    method RecoverPending() returns (resumed: set<AlertId>)
      modifies this`deliveries
      ensures resumed == set id | id in old(deliveries) && old(deliveries)[id].status == Waiting && Resumable(old(deliveries)[id])
      ensures deliveries.Keys == old(deliveries).Keys
      ensures forall id :: id in deliveries ==>
                deliveries[id] == if old(deliveries)[id].status == Waiting && !Resumable(old(deliveries)[id])
                                  then old(deliveries)[id].(status := Undelivered, failed := true) else old(deliveries)[id]
    {
      resumed := {};
      var rest := set id | id in deliveries && deliveries[id].status == Waiting;
      ghost var pending := rest;
      while rest != {}
        invariant rest <= pending && deliveries.Keys == old(deliveries).Keys
        invariant resumed == set id | id in pending - rest && Resumable(old(deliveries)[id])
        invariant forall id :: id in deliveries ==>
                    deliveries[id] == if id in pending - rest && !Resumable(old(deliveries)[id])
                                      then old(deliveries)[id].(status := Undelivered, failed := true) else old(deliveries)[id]
        decreases |rest|
      {
        var id :| id in rest;
        rest := rest - {id};
        if deliveries[id].attempts > 0 && !deliveries[id].failed {
          deliveries := deliveries[id := deliveries[id].(status := Undelivered, failed := true)];
        } else {
          resumed := resumed + {id};
        }
      }
    }
  }
}
