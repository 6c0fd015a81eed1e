/** Main results about runs of the channel engine. */
module PublicationTheorems {
  import opened Common
  import opened PublicationModel
  import opened PublicationMachine
  import opened PublicationSafety

  // --- invariants over whole runs --------------------------------------------------------------------

  lemma {:induction false} RunKeeps(c: Config, s: State, actions: seq<Action>)
    requires Inv(c, s) && Valid(c, s, actions)
    ensures Inv(c, Run(c, s, actions))
    decreases |actions|
  {
    if actions != [] {
      StepKeeps(c, s, actions[0]);
      RunKeeps(c, Step(c, s, actions[0]), actions[1..]);
    }
  }

  /**
   * Whatever interleaving, failed writes and restarts led here: keys are unique, each destination of a
   * job has one record, no two executors share a job, every executor's job is stored and PUBLISHING,
   * and the history is bounded by the limit or by the unfinished work.
   */
  lemma ReachableStates(c: Config, actions: seq<Action>)
    requires c.maxAttempts >= 1 && Valid(c, Start(), actions)
    ensures var s := Run(c, Start(), actions);
            && UniqueKeys(s.mem) && DeliveriesOk(s.mem) && Bounded(c.historyLimit, s.mem)
            && (forall e :: e in s.executors ==> IsPublishing(s.mem, s.executors[e].job))
            && (forall e, f | e in s.executors && f in s.executors :: s.executors[e].job == s.executors[f].job ==> e == f)
            && (!s.recovering ==> forall j :: IsPublishing(s.mem, j) ==> Held(s, j))
  {
    RunKeeps(c, Start(), actions);
  }

  /** During recovery nothing is sent: there is no executor to send it. */
  lemma RecoverySendsNothing(c: Config, s: State, a: Action)
    requires Inv(c, s) && s.recovering && Enabled(c, s, a)
    ensures Step(c, s, a).log == s.log
  {
  }

  // --- a settled destination is never called again -------------------------------------------------------

  /** The record of this status is stored, or the job is no longer retained. */
  ghost predicate Keeps(doc: Document, j: JobId, d: Destination, status: DeliveryStatus) {
    j !in doc.jobs || HasRecord(doc, j, d, status)
  }

  /** The destination is confirmed or ambiguous for this job, or the job is no longer retained. */
  ghost predicate Settled(doc: Document, j: JobId, d: Destination) {
    Keeps(doc, j, d, Sent) || Keeps(doc, j, d, Unknown)
  }

  /** How many platform calls were made for one destination of one job. */
  function CallsFor(log: seq<Call>, j: JobId, d: Destination): nat {
    if log == [] then 0
    else
      var last := log[|log| - 1];
      CallsFor(log[..|log| - 1], j, d) + if last.job == j && last.destination == d then 1 else 0
  }

  lemma CallsForAppend(log: seq<Call>, call: Call, j: JobId, d: Destination)
    ensures CallsFor(log + [call], j, d) ==
            CallsFor(log, j, d) + if call.job == j && call.destination == d then 1 else 0
  {
    assert (log + [call])[..|log|] == log;
  }

  /** A platform call is only ever made for a target whose stored record is open. */
  lemma CallsNeedOpenRecord(c: Config, s: State, e: ExecutorId, d: Destination, answer: Answer)
    requires Inv(c, s) && Enabled(c, s, Publish(e, d, answer))
    ensures s.executors[e].job in s.mem.jobs && !Settled(s.mem, s.executors[e].job, d)
  {
    var j := s.executors[e].job;
    var lane := s.executors[e].lanes[d];
    assert LaneOk(c, s.mem, j, d, lane);
    forall k | k in s.mem.deliveries && s.mem.deliveries[k].jobId == j && s.mem.deliveries[k].destination == d
      ensures Open(s.mem.deliveries[k].status)
    {
      assert SameTarget(s.mem.deliveries[k], s.mem.deliveries[lane.id]);
    }
  }

  lemma DropKeeps(doc: Document, gone: set<JobId>, j: JobId, d: Destination, status: DeliveryStatus)
    requires Keeps(doc, j, d, status)
    ensures Keeps(Drop(doc, gone), j, d, status)
  {
    var t := Drop(doc, gone);
    if j in t.jobs {
      var k :| k in doc.deliveries && doc.deliveries[k].jobId == j && doc.deliveries[k].destination == d &&
               doc.deliveries[k].status == status;
      assert k in t.deliveries && t.deliveries[k] == doc.deliveries[k];
    }
  }

  /** Writing one record never reopens a settled target: lanes only write over open records. */
  lemma WriteKeeps(doc: Document, k: DeliveryId, record: Delivery, j: JobId, d: Destination, status: DeliveryStatus)
    requires Keeps(doc, j, d, status) && !Open(status) && Fits(doc, k, record)
    requires k in doc.deliveries ==> Open(doc.deliveries[k].status)
    ensures Keeps(SetDelivery(doc, k, record), j, d, status)
  {
    var t := SetDelivery(doc, k, record);
    if j in t.jobs {
      var x :| x in doc.deliveries && doc.deliveries[x].jobId == j && doc.deliveries[x].destination == d &&
               doc.deliveries[x].status == status;
      assert x != k;
      assert t.deliveries[x] == doc.deliveries[x];
    }
  }

  lemma KeepsFrame(a: Document, b: Document, j: JobId, d: Destination, status: DeliveryStatus)
    requires Keeps(a, j, d, status) && a.deliveries == b.deliveries && (j in b.jobs ==> j in a.jobs)
    ensures Keeps(b, j, d, status)
  {
  }

  lemma WrittenKeeps(c: Config, s: State, a: Action, j: JobId, d: Destination, status: DeliveryStatus)
    requires Inv(c, s) && Guard(s, a) && Keeps(s.mem, j, d, status) && !Open(status) && j < s.nextId
    ensures Keeps(Written(s, a), j, d, status)
  {
    if a.Begin? || a.Store? {
      var lane := s.executors[a.executor].lanes[a.destination];
      assert LaneOk(c, s.mem, s.executors[a.executor].job, a.destination, lane);
      if a.Begin? {
        var k := if lane.found.Some? then lane.found.value else s.nextId;
        WriteKeeps(s.mem, k, lane.record.(status := Sending), j, d, status);
      } else {
        WriteKeeps(s.mem, lane.id, lane.record, j, d, status);
      }
    } else {
      assert Written(s, a).deliveries == s.mem.deliveries;
      KeepsFrame(s.mem, Written(s, a), j, d, status);
    }
  }

  /** A settled record survives every step of a process, and every step at all once it is on disk. */
  lemma KeepsStep(c: Config, s: State, a: Action, j: JobId, d: Destination, status: DeliveryStatus)
    requires Inv(c, s) && Enabled(c, s, a) && j < s.nextId && Keeps(s.mem, j, d, status) && !Open(status)
    ensures !a.Crash? ==> Keeps(Step(c, s, a).mem, j, d, status)
    ensures Keeps(s.disk, j, d, status) ==>
              Keeps(Step(c, s, a).mem, j, d, status) && Keeps(Step(c, s, a).disk, j, d, status)
    ensures j < Step(c, s, a).nextId
  {
    WrittenKeeps(c, s, a, j, d, status);
    if Writes(a) {
      DropKeeps(Written(s, a), a.w.gone, j, d, status);
    }
  }

  lemma SettledLog(c: Config, s: State, a: Action, j: JobId, d: Destination)
    requires Inv(c, s) && Enabled(c, s, a) && Settled(s.mem, j, d)
    ensures CallsFor(Step(c, s, a).log, j, d) == CallsFor(s.log, j, d)
  {
    if a.Publish? {
      CallsNeedOpenRecord(c, s, a.executor, a.destination, a.answer);
      var call := Call(a.executor, s.executors[a.executor].job, a.destination, a.answer);
      assert !(call.job == j && call.destination == d);
      CallsForAppend(s.log, call, j, d);
    }
  }

  /**
   * Once a confirmed or ambiguous outcome is on disk, no run whatsoever (restarts, re-executions, later
   * failed writes, pruning) calls that destination for that job again.
   */
  lemma {:induction false} SettledForever(c: Config, s: State, actions: seq<Action>, j: JobId, d: Destination,
                                          status: DeliveryStatus)
    requires Inv(c, s) && Valid(c, s, actions) && j < s.nextId && (status == Sent || status == Unknown)
    requires Keeps(s.mem, j, d, status) && Keeps(s.disk, j, d, status)
    ensures CallsFor(Run(c, s, actions).log, j, d) == CallsFor(s.log, j, d)
    ensures Keeps(Run(c, s, actions).mem, j, d, status) && Keeps(Run(c, s, actions).disk, j, d, status)
    decreases |actions|
  {
    if actions != [] {
      StepKeeps(c, s, actions[0]);
      KeepsStep(c, s, actions[0], j, d, status);
      SettledLog(c, s, actions[0], j, d);
      SettledForever(c, Step(c, s, actions[0]), actions[1..], j, d, status);
    }
  }

  predicate HasCrash(actions: seq<Action>) {
    exists i :: 0 <= i < |actions| && actions[i].Crash?
  }

  /** Within one process lifetime the outcome in memory is enough, even if every write fails. */
  lemma {:induction false} SettledUntilRestart(c: Config, s: State, actions: seq<Action>, j: JobId, d: Destination,
                                               status: DeliveryStatus)
    requires Inv(c, s) && Valid(c, s, actions) && j < s.nextId && (status == Sent || status == Unknown)
    requires Keeps(s.mem, j, d, status) && !HasCrash(actions)
    ensures CallsFor(Run(c, s, actions).log, j, d) == CallsFor(s.log, j, d)
    ensures Keeps(Run(c, s, actions).mem, j, d, status)
    decreases |actions|
  {
    if actions != [] {
      assert !actions[0].Crash?;
      assert forall i :: 0 <= i < |actions[1..]| ==> actions[1..][i] == actions[i + 1];
      StepKeeps(c, s, actions[0]);
      KeepsStep(c, s, actions[0], j, d, status);
      SettledLog(c, s, actions[0], j, d);
      SettledUntilRestart(c, Step(c, s, actions[0]), actions[1..], j, d, status);
    }
  }

  /** A finished lane tells whether its destination has a stored confirmation. */
  lemma DoneLaneTruth(c: Config, doc: Document, j: JobId, d: Destination, lane: Lane)
    requires DeliveriesOk(doc) && lane.Done? && LaneOk(c, doc, j, d, lane)
    ensures HasRecord(doc, j, d, Sent) <==> lane.record.status == Sent
  {
    forall k | k in doc.deliveries && doc.deliveries[k].jobId == j && doc.deliveries[k].destination == d
      ensures k == lane.id
    {
      assert SameTarget(doc.deliveries[k], doc.deliveries[lane.id]);
    }
  }

  /** A job finishes as PUBLISHED exactly when a configured destination has a stored confirmation, and as FAILED otherwise. */
  lemma FinishTellsTheTruth(c: Config, s: State, e: ExecutorId, at: int, w: Write)
    requires Inv(c, s) && Enabled(c, s, Finish(e, at, w))
    ensures var j := s.executors[e].job;
            Written(s, Finish(e, at, w)).jobs[j].status ==
            if exists d :: d in c.destinations && HasRecord(s.mem, j, d, Sent) then Published else Failed
  {
    var x := s.executors[e];
    assert ExecutorOk(c, s.mem, x);
    forall d | d in c.destinations
      ensures HasRecord(s.mem, x.job, d, Sent) <==> x.lanes[d].record.status == Sent
    {
      assert LaneOk(c, s.mem, x.job, d, x.lanes[d]);
      DoneLaneTruth(c, s.mem, x.job, d, x.lanes[d]);
    }
  }

  // --- bounded attempts ------------------------------------------------------------------------------------

  function CallsBy(log: seq<Call>, e: ExecutorId, d: Destination): nat {
    if log == [] then 0
    else
      var last := log[|log| - 1];
      CallsBy(log[..|log| - 1], e, d) + if last.executor == e && last.destination == d then 1 else 0
  }

  lemma CallsByAppend(log: seq<Call>, call: Call, e: ExecutorId, d: Destination)
    ensures CallsBy(log + [call], e, d) ==
            CallsBy(log, e, d) + if call.executor == e && call.destination == d then 1 else 0
  {
    assert (log + [call])[..|log|] == log;
  }

  /** How many calls a lane has made so far, as its own counter says. */
  ghost predicate LaneCount(c: Config, lane: Lane, calls: nat) {
    match lane
    case Idle => calls == 0
    case Fetched(_, _) => calls == 0
    case Ready(_, _, attempt) => calls + 1 == attempt
    case Answered(_, _, attempt) => calls == attempt
    case Done(_, _) => calls <= c.maxAttempts
  }

  ghost predicate CallsCounted(c: Config, s: State) {
    && (forall e, d :: CallsBy(s.log, e, d) <= c.maxAttempts)
    && (forall e, d :: e >= s.nextId ==> CallsBy(s.log, e, d) == 0)
    && (forall e, d :: e in s.executors && s.executors[e].deciding ==> CallsBy(s.log, e, d) == 0)
    && (forall e, d :: HasLane(s, e, d) ==> LaneCount(c, s.executors[e].lanes[d], CallsBy(s.log, e, d)))
  }

  predicate OnLane(a: Action, e: ExecutorId, d: Destination) {
    (a.Fetch? || a.Begin? || a.Publish? || a.Store?) && a.executor == e && a.destination == d
  }

  /** A lane is new (its executor just started delivering), moved by its own action, or unchanged. */
  lemma LaneChange(c: Config, s: State, a: Action, e: ExecutorId, d: Destination)
    requires Guard(s, a) && s.nextId !in s.executors && HasLane(Step(c, s, a), e, d)
    ensures HasLane(s, e, d) || (a == Deliver(e) && Step(c, s, a).executors[e].lanes[d] == Idle)
    ensures HasLane(s, e, d) && !OnLane(a, e, d) ==> Step(c, s, a).executors[e].lanes[d] == s.executors[e].lanes[d]
  {
  }

  lemma LaneCountStep(c: Config, s: State, a: Action, e: ExecutorId, d: Destination)
    requires s.nextId !in s.executors && CallsCounted(c, s) && Guard(s, a) && !a.Publish?
    requires HasLane(Step(c, s, a), e, d)
    ensures LaneCount(c, Step(c, s, a).executors[e].lanes[d], CallsBy(s.log, e, d))
  {
    LaneChange(c, s, a, e, d);
    if HasLane(s, e, d) {
      LaneCountMove(c, s, a, e, d);
    }
  }

  lemma LaneCountMove(c: Config, s: State, a: Action, e: ExecutorId, d: Destination)
    requires s.nextId !in s.executors && Guard(s, a) && !a.Publish?
    requires HasLane(s, e, d) && HasLane(Step(c, s, a), e, d) && CallsBy(s.log, e, d) <= c.maxAttempts
    requires LaneCount(c, s.executors[e].lanes[d], CallsBy(s.log, e, d))
    requires !OnLane(a, e, d) ==> Step(c, s, a).executors[e].lanes[d] == s.executors[e].lanes[d]
    ensures LaneCount(c, Step(c, s, a).executors[e].lanes[d], CallsBy(s.log, e, d))
  {
    if a.Store? && OnLane(a, e, d) {
      var lane := LaneOf(s, e, d);
      StoreStep(c, s, e, d, a.w, if MayRetry(lane.record) && lane.attempt < c.maxAttempts
                                 then Ready(lane.id, lane.record, lane.attempt + 1) else Done(lane.id, lane.record));
    }
  }

  lemma CalledLaneCount(c: Config, s: State, e: ExecutorId, d: Destination, answer: Answer, f: ExecutorId, d': Destination)
    requires CallsCounted(c, s) && Guard(s, Publish(e, d, answer))
    requires HasLane(Step(c, s, Publish(e, d, answer)), f, d')
    ensures var t := Step(c, s, Publish(e, d, answer));
            LaneCount(c, t.executors[f].lanes[d'], CallsBy(t.log, f, d'))
  {
    CallsByAppend(s.log, Call(e, s.executors[e].job, d, answer), f, d');
    assert HasLane(s, f, d');
    assert LaneCount(c, s.executors[f].lanes[d'], CallsBy(s.log, f, d'));
  }

  lemma CountedCall(c: Config, s: State, e: ExecutorId, d: Destination, answer: Answer)
    requires CallsCounted(c, s) && Guard(s, Publish(e, d, answer)) && e < s.nextId
    requires s.executors[e].lanes[d].attempt <= c.maxAttempts
    ensures CallsCounted(c, Step(c, s, Publish(e, d, answer)))
  {
    var t := Step(c, s, Publish(e, d, answer));
    assert HasLane(s, e, d) && LaneCount(c, s.executors[e].lanes[d], CallsBy(s.log, e, d));
    forall f, d' ensures CallsBy(t.log, f, d') == CallsBy(s.log, f, d') + if e == f && d == d' then 1 else 0 {
      CallsByAppend(s.log, Call(e, s.executors[e].job, d, answer), f, d');
    }
    forall f, d' | HasLane(t, f, d') ensures LaneCount(c, t.executors[f].lanes[d'], CallsBy(t.log, f, d')) {
      CalledLaneCount(c, s, e, d, answer, f, d');
    }
  }

  lemma CountedStep(c: Config, s: State, a: Action)
    requires Inv(c, s) && CallsCounted(c, s) && Enabled(c, s, a)
    ensures CallsCounted(c, Step(c, s, a))
  {
    var t := Step(c, s, a);
    if a.Publish? {
      assert LaneOk(c, s.mem, s.executors[a.executor].job, a.destination, s.executors[a.executor].lanes[a.destination]);
      CountedCall(c, s, a.executor, a.destination, a.answer);
    } else {
      assert t.log == s.log && t.nextId >= s.nextId;
      forall e, d | HasLane(t, e, d) ensures LaneCount(c, t.executors[e].lanes[d], CallsBy(t.log, e, d)) {
        LaneCountStep(c, s, a, e, d);
      }
      CountedDeciding(c, s, a);
    }
  }

  lemma CountedDeciding(c: Config, s: State, a: Action)
    requires CallsCounted(c, s) && Guard(s, a) && !a.Publish?
    ensures var t := Step(c, s, a);
            forall e, d :: e in t.executors && t.executors[e].deciding ==> CallsBy(s.log, e, d) == 0
  {
    var t := Step(c, s, a);
    forall e, d | e in t.executors && t.executors[e].deciding ensures CallsBy(s.log, e, d) == 0 {
      assert e >= s.nextId || (e in s.executors && s.executors[e].deciding);
    }
  }

  /** Each execution calls each destination at most `maxAttempts` times. */
  lemma {:induction false} AttemptsBounded(c: Config, s: State, actions: seq<Action>, e: ExecutorId, d: Destination)
    requires Inv(c, s) && CallsCounted(c, s) && Valid(c, s, actions)
    ensures CallsCounted(c, Run(c, s, actions))
    ensures CallsBy(Run(c, s, actions).log, e, d) <= c.maxAttempts
    decreases |actions|
  {
    if actions != [] {
      StepKeeps(c, s, actions[0]);
      CountedStep(c, s, actions[0]);
      AttemptsBounded(c, Step(c, s, actions[0]), actions[1..], e, d);
    }
  }

  lemma CallsBounded(c: Config, actions: seq<Action>, e: ExecutorId, d: Destination)
    requires c.maxAttempts >= 1 && Valid(c, Start(), actions)
    ensures CallsBy(Run(c, Start(), actions).log, e, d) <= c.maxAttempts
  {
    AttemptsBounded(c, Start(), actions, e, d);
  }
}
