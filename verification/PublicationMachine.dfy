/**
 * The channel engine as a machine whose steps interleave freely: concurrent executors, one delivery
 * lane per destination, document writes that may silently fail, crashes and restart recovery.
 * Every transaction body is one step; every platform call is one step with an arbitrary answer.
 */
module PublicationMachine {
  import opened Common
  import opened PublicationModel

  type ExecutorId = nat

  datatype Config = Config(destinations: set<Destination>, maxAttempts: nat, historyLimit: nat)

  /** Progress of one `deliverTo`: read the record, store SENDING, call, store the answer, repeat. */
  datatype Lane =
    | Idle
    | Fetched(found: Option<DeliveryId>, record: Delivery)
    | Ready(id: DeliveryId, record: Delivery, attempt: nat)
    | Answered(id: DeliveryId, record: Delivery, attempt: nat)
    | Done(id: DeliveryId, record: Delivery)

  datatype Executor = Executor(job: JobId, deciding: bool, lanes: map<Destination, Lane>)

  datatype Call = Call(executor: ExecutorId, job: JobId, destination: Destination, answer: Answer)

  /** `mem` is the live document, `disk` the last one written; a failed write is swallowed. */
  datatype State = State(mem: Document, disk: Document, executors: map<ExecutorId, Executor>,
                         recovering: bool, nextId: nat, log: seq<Call>)

  /** How a transaction ends: which jobs pruning removed, and whether the file write succeeded. */
  datatype Write = Write(gone: set<JobId>, durable: bool)

  datatype Action =
    | Create(key: Key, at: int, w: Write)
    | Claim(job: JobId, at: int, w: Write)
    | Decline(executor: ExecutorId, failed: bool, at: int, w: Write)
    | Deliver(executor: ExecutorId)
    | Fetch(executor: ExecutorId, destination: Destination)
    | Begin(executor: ExecutorId, destination: Destination, w: Write)
    | Publish(executor: ExecutorId, destination: Destination, answer: Answer)
    | Store(executor: ExecutorId, destination: Destination, w: Write)
    | Finish(executor: ExecutorId, at: int, w: Write)
    | OtherWrite(durable: bool)
    | Crash
    | RecoverJob(job: JobId, at: int, w: Write)
    | Resume

  // --- steps -------------------------------------------------------------------------------------

  function Commit(s: State, doc: Document, w: Write): State {
    var pruned := Drop(doc, w.gone);
    s.(mem := pruned, disk := if w.durable then pruned else s.disk)
  }

  predicate HasLane(s: State, e: ExecutorId, d: Destination) {
    e in s.executors && !s.executors[e].deciding && d in s.executors[e].lanes
  }

  function LaneOf(s: State, e: ExecutorId, d: Destination): Lane
    requires HasLane(s, e, d)
  {
    s.executors[e].lanes[d]
  }

  function SetLane(s: State, e: ExecutorId, d: Destination, lane: Lane): State
    requires HasLane(s, e, d)
  {
    var x := s.executors[e];
    s.(executors := s.executors[e := x.(lanes := x.lanes[d := lane])])
  }

  function SetJob(doc: Document, j: JobId, job: Job): Document {
    doc.(jobs := doc.jobs[j := job])
  }

  function SetDelivery(doc: Document, k: DeliveryId, record: Delivery): Document {
    doc.(deliveries := doc.deliveries[k := record])
  }

  function RecordIds(doc: Document, j: JobId, d: Destination): set<DeliveryId> {
    set k | k in doc.deliveries && doc.deliveries[k].jobId == j && doc.deliveries[k].destination == d
  }

  predicate AllDone(x: Executor) {
    !x.deciding && forall d | d in x.lanes :: x.lanes[d].Done?
  }

  /** PUBLISHED exactly when some destination confirmed, otherwise FAILED. */
  function DeliveredStatus(x: Executor): JobStatus
    requires AllDone(x)
  {
    if exists d | d in x.lanes :: x.lanes[d].record.status == Sent then Published else Failed
  }

  predicate KeyTaken(doc: Document, key: Key) {
    exists j :: j in doc.jobs && doc.jobs[j].key == key
  }

  /** The document an action writes, before pruning. */
  function Written(s: State, a: Action): Document
    requires Guard(s, a)
  {
    match a
    case Create(key, at, _) => SetJob(s.mem, s.nextId, NewJob(key, at))
    case Claim(j, at, _) => SetJob(s.mem, j, ClaimedJob(s.mem.jobs[j], at))
    case Decline(e, failed, at, _) =>
      var j := s.executors[e].job;
      SetJob(s.mem, j, FinishedJob(s.mem.jobs[j], if failed then Failed else Skipped, at))
    case Begin(e, d, _) =>
      var lane := LaneOf(s, e, d);
      SetDelivery(s.mem, if lane.found.Some? then lane.found.value else s.nextId,
                  lane.record.(status := Sending))
    case Store(e, d, _) => SetDelivery(s.mem, LaneOf(s, e, d).id, LaneOf(s, e, d).record)
    case Finish(e, at, _) =>
      var j := s.executors[e].job;
      SetJob(s.mem, j, FinishedJob(s.mem.jobs[j], DeliveredStatus(s.executors[e]), at))
    case RecoverJob(j, at, _) => SetJob(s.mem, j, FinishedJob(s.mem.jobs[j], RecoveredStatus(s.mem, j), at))
    case _ => s.mem
  }

  /** When an action can happen, apart from the choice of what pruning removes. */
  predicate Guard(s: State, a: Action) {
    match a
    case Create(key, _, _) => !s.recovering && !KeyTaken(s.mem, key)
    case Claim(j, _, _) =>
      !s.recovering && j in s.mem.jobs && s.mem.jobs[j].status != Publishing && s.mem.jobs[j].status != Published
    case Decline(e, _, _, _) =>
      e in s.executors && s.executors[e].deciding && s.executors[e].job in s.mem.jobs
    case Deliver(e) => e in s.executors && s.executors[e].deciding
    case Fetch(e, d) => HasLane(s, e, d) && LaneOf(s, e, d).Idle?
    case Begin(e, d, _) =>
      HasLane(s, e, d) && LaneOf(s, e, d).Fetched?
    case Publish(e, d, _) => HasLane(s, e, d) && LaneOf(s, e, d).Ready?
    case Store(e, d, _) => HasLane(s, e, d) && LaneOf(s, e, d).Answered?
    case Finish(e, _, _) =>
      e in s.executors && AllDone(s.executors[e]) && s.executors[e].job in s.mem.jobs
    case OtherWrite(_) => true
    case Crash => true
    case RecoverJob(j, _, _) => s.recovering && j in UnfinishedIds(s.mem) && Before(s.mem, j) == {}
    case Resume => s.recovering && UnfinishedIds(s.mem) == {}
  }

  predicate Writes(a: Action) {
    a.Create? || a.Claim? || a.Decline? || a.Begin? || a.Store? || a.Finish? || a.RecoverJob?
  }

  ghost predicate Enabled(c: Config, s: State, a: Action) {
    Guard(s, a) && (Writes(a) ==> IsPrune(c.historyLimit, Written(s, a), a.w.gone))
  }

  /** The lane an executor starts from when it reads the stored record of its destination. */
  ghost function FetchLane(s: State, j: JobId, d: Destination): Lane {
    var found := RecordIds(s.mem, j, d);
    if found == {} then Fetched(None, NewDelivery(j, d))
    else
      var k := AnyOf(found);
      if Open(s.mem.deliveries[k].status) then Fetched(Some(k), s.mem.deliveries[k])
      else Done(k, s.mem.deliveries[k])
  }

  ghost function AnyOf(ids: set<DeliveryId>): (k: DeliveryId)
    requires ids != {}
    ensures k in ids
  {
    var k :| k in ids; k
  }

  ghost function Step(c: Config, s: State, a: Action): State
    requires Guard(s, a)
  {
    match a
    case Create(_, _, w) => Commit(s, Written(s, a), w).(nextId := s.nextId + 1)
    case Claim(j, _, w) =>
      Commit(s, Written(s, a), w).(executors := s.executors[s.nextId := Executor(j, true, map[])],
                                   nextId := s.nextId + 1)
    case Decline(e, _, _, w) => Commit(s, Written(s, a), w).(executors := s.executors - {e})
    case Deliver(e) =>
      var x := s.executors[e];
      s.(executors := s.executors[e := x.(deciding := false, lanes := map d | d in c.destinations :: Idle)])
    case Fetch(e, d) => SetLane(s, e, d, FetchLane(s, s.executors[e].job, d))
    case Begin(e, d, w) =>
      var lane := LaneOf(s, e, d);
      var k := if lane.found.Some? then lane.found.value else s.nextId;
      Commit(SetLane(s, e, d, Ready(k, lane.record, 1)), Written(s, a), w).(nextId := s.nextId + 1)
    case Publish(e, d, answer) =>
      var lane := LaneOf(s, e, d);
      SetLane(s, e, d, Answered(lane.id, AfterCall(lane.record, answer), lane.attempt))
      .(log := s.log + [Call(e, s.executors[e].job, d, answer)])
    case Store(e, d, w) =>
      var lane := LaneOf(s, e, d);
      var next := if MayRetry(lane.record) && lane.attempt < c.maxAttempts
                  then Ready(lane.id, lane.record, lane.attempt + 1)
                  else Done(lane.id, lane.record);
      Commit(SetLane(s, e, d, next), Written(s, a), w)
    case Finish(e, _, w) => Commit(s, Written(s, a), w).(executors := s.executors - {e})
    case OtherWrite(durable) => s.(disk := if durable then s.mem else s.disk)
    case Crash => s.(mem := s.disk, executors := map[], recovering := true)
    case RecoverJob(_, _, w) => Commit(s, Written(s, a), w)
    case Resume => s.(recovering := false)
  }

  ghost predicate Valid(c: Config, s: State, actions: seq<Action>)
    decreases |actions|
  {
    actions == [] || (Enabled(c, s, actions[0]) && Valid(c, Step(c, s, actions[0]), actions[1..]))
  }

  ghost function Run(c: Config, s: State, actions: seq<Action>): State
    requires Valid(c, s, actions)
    decreases |actions|
  {
    if actions == [] then s else Run(c, Step(c, s, actions[0]), actions[1..])
  }

  function Start(): State {
    var empty := Document(map[], map[]);
    State(empty, empty, map[], true, 0, [])
  }
}
