/**
 * Broadcast jobs and their recipients, the transactions of the administration document, and the worker as
 * a machine: administrators' commands, batch ticks, sends with arbitrary answers, failed writes, restarts.
 * A failed write discards the draft, so the live document is always the written one.
 */
module BroadcastModel {
  import opened Common

  type JobId = nat
  type RecipientId = nat
  type Identity = string

  datatype Config = Config(maxAttempts: nat, maxRetries: nat, batchSize: nat, backoff: nat)

  datatype JobStatus = Prepared | Running | Completed | Cancelled | Failed
  datatype Job = Job(status: JobStatus, createdAt: int, total: nat, retryCount: nat, notBefore: Option<int>)

  datatype RecipientStatus = Pending | Sent | Failure | Unknown | Skipped
  datatype Recipient = Recipient(job: JobId, identity: Identity, status: RecipientStatus, attempts: nat,
                                 notBefore: Option<int>)

  datatype Document = Document(jobs: map<JobId, Job>, recipients: map<RecipientId, Recipient>)

  /** The answer to one send; `NoAdapter` is an unconfigured platform, where nothing is called. */
  datatype Answer = Accepted | RateLimited | Refused | NoAnswer | NoAdapter

  /** Every answer except a rate limit uses up one attempt. */
  predicate Counted(a: Answer) {
    a != RateLimited
  }

  // --- transactions ------------------------------------------------------------------------------------------

  function RecipientsOf(doc: Document, j: JobId): set<RecipientId> {
    set r | r in doc.recipients && doc.recipients[r].job == j
  }

  function WithStatus(doc: Document, j: JobId, status: RecipientStatus): set<RecipientId> {
    set r | r in doc.recipients && doc.recipients[r].job == j && doc.recipients[r].status == status
  }

  function Changed(x: Recipient, j: JobId, status: RecipientStatus, change: Recipient -> Recipient): Recipient {
    if x.job == j && x.status == status then change(x) else x
  }

  /** Give every recipient of one job in `status` a new record. */
  function Rewrite(doc: Document, j: JobId, status: RecipientStatus, change: Recipient -> Recipient): Document {
    doc.(recipients := map r | r in doc.recipients :: Changed(doc.recipients[r], j, status, change))
  }

  function Drop(recipient: Recipient): Recipient {
    recipient.(status := Skipped)
  }

  function Requeue(recipient: Recipient): Recipient {
    recipient.(status := Pending, attempts := 0, notBefore := None)
  }

  function SetJob(doc: Document, j: JobId, job: Job): Document {
    doc.(jobs := doc.jobs[j := job])
  }

  function ConfirmDoc(doc: Document, j: JobId): Document
    requires j in doc.jobs
  {
    SetJob(doc, j, doc.jobs[j].(status := Running))
  }

  function CancelDoc(doc: Document, j: JobId): Document
    requires j in doc.jobs
  {
    SetJob(Rewrite(doc, j, Pending, Drop), j, doc.jobs[j].(status := Cancelled))
  }

  function RetryDoc(doc: Document, j: JobId): Document
    requires j in doc.jobs
  {
    SetJob(Rewrite(doc, j, Failure, Requeue), j,
           doc.jobs[j].(status := Running, retryCount := doc.jobs[j].retryCount + 1, notBefore := None))
  }

  /** What one answer stores, from the record the tick read when it chose its batch. */
  function Outcome(c: Config, read: Recipient, current: Recipient, a: Answer, now: int): Recipient {
    match a
    case NoAdapter => current.(status := Failure, attempts := read.attempts + 1)
    case NoAnswer => current.(status := Unknown, attempts := read.attempts + 1)
    case Accepted => current.(status := Sent, attempts := read.attempts + 1)
    case RateLimited => current.(status := Pending, attempts := read.attempts, notBefore := Some(now + c.backoff))
    case Refused =>
      if read.attempts + 1 < c.maxAttempts
      then current.(status := Pending, attempts := read.attempts + 1, notBefore := Some(now + c.backoff))
      else current.(status := Failure, attempts := read.attempts + 1)
  }

  /** A recipient that is no longer PENDING keeps its stored outcome. */
  function StoreDoc(c: Config, doc: Document, r: RecipientId, read: Recipient, a: Answer, now: int): Document {
    if r in doc.recipients && doc.recipients[r].status == Pending
    then doc.(recipients := doc.recipients[r := Outcome(c, read, doc.recipients[r], a, now)])
    else doc
  }

  function BackOffDoc(c: Config, doc: Document, j: JobId, now: int): Document {
    if j in doc.jobs && doc.jobs[j].status == Running
    then SetJob(doc, j, doc.jobs[j].(notBefore := Some(now + c.backoff))) else doc
  }

  /** COMPLETED, or FAILED when nothing was accepted although something was tried. */
  function ClosedStatus(doc: Document, j: JobId): JobStatus {
    if WithStatus(doc, j, Sent) == {} && (WithStatus(doc, j, Failure) != {} || WithStatus(doc, j, Unknown) != {})
    then Failed else Completed
  }

  function FinalizeDoc(doc: Document, j: JobId): Document {
    if j in doc.jobs && doc.jobs[j].status == Running && WithStatus(doc, j, Pending) == {}
    then SetJob(doc, j, doc.jobs[j].(status := ClosedStatus(doc, j))) else doc
  }

  predicate Due(notBefore: Option<int>, now: int) {
    notBefore.None? || notBefore.value <= now
  }

  // --- the machine ---------------------------------------------------------------------------------------------

  /** One running tick: the batch still to send, as read at the start, and an answer not stored yet. */
  datatype Tick = Tick(job: JobId, now: int, todo: seq<RecipientId>, read: map<RecipientId, Recipient>,
                       held: Option<Answer>, stopped: bool)

  datatype Entry = Entry(recipient: RecipientId, answer: Answer)

  datatype State = State(doc: Document, tick: Option<Tick>, nextId: nat, log: seq<Entry>)

  /** `ok` is whether the document write of the action succeeded. */
  datatype Action =
    | Prepare(at: int, audience: map<RecipientId, Identity>, next: nat, ok: bool)
    | Confirm(job: JobId, ok: bool)
    | Cancel(job: JobId, ok: bool)
    | Retry(job: JobId, ok: bool)
    | StartTick(job: JobId, now: int, batch: seq<RecipientId>)
    | Send(answer: Answer)
    | StoreOutcome(ok: bool)
    | BackOff(ok: bool)
    | Finalize(ok: bool)
    | Restart

  ghost predicate DistinctIdentities(audience: map<RecipientId, Identity>) {
    forall a, b | a in audience && b in audience :: audience[a] == audience[b] ==> a == b
  }

  ghost predicate Distinct(batch: seq<RecipientId>) {
    forall i, k | 0 <= i < k < |batch| :: batch[i] != batch[k]
  }

  ghost predicate Enabled(c: Config, s: State, a: Action) {
    match a
    case Prepare(_, audience, next, _) =>
      && audience != map[] && DistinctIdentities(audience) && s.nextId < next
      && forall r :: r in audience ==> s.nextId < r < next
    case Confirm(j, _) => j in s.doc.jobs && s.doc.jobs[j].status == Prepared
    case Cancel(j, _) => j in s.doc.jobs  // the status check precedes the transaction, which does not repeat it
    case Retry(j, _) =>
      j in s.doc.jobs && s.doc.jobs[j].status != Running && s.doc.jobs[j].retryCount < c.maxRetries &&
      WithStatus(s.doc, j, Failure) != {}
    case StartTick(j, now, batch) =>
      && s.tick.None? && j in s.doc.jobs && s.doc.jobs[j].status == Running && Due(s.doc.jobs[j].notBefore, now)
      && |batch| <= c.batchSize && Distinct(batch)
      && forall i :: 0 <= i < |batch| ==> batch[i] in WithStatus(s.doc, j, Pending)
    case Send(_) => s.tick.Some? && s.tick.value.held.None? && !s.tick.value.stopped && s.tick.value.todo != []
    case StoreOutcome(_) =>
      s.tick.Some? && s.tick.value.held.Some? && s.tick.value.todo != [] && s.tick.value.todo[0] in s.tick.value.read
    case BackOff(_) => s.tick.Some? && s.tick.value.stopped
    case Finalize(_) => s.tick.Some? && !s.tick.value.stopped && s.tick.value.held.None? && s.tick.value.todo == []
    case Restart => true
  }

  function PrepareDoc(doc: Document, j: JobId, at: int, audience: map<RecipientId, Identity>): Document {
    Document(doc.jobs[j := Job(Prepared, at, |audience|, 0, None)],
             map r | r in doc.recipients.Keys + audience.Keys ::
               if r in audience then Recipient(j, audience[r], Pending, 0, None) else doc.recipients[r])
  }

  function Snapshot(doc: Document, batch: seq<RecipientId>): map<RecipientId, Recipient> {
    map r | r in batch && r in doc.recipients :: doc.recipients[r]
  }

  ghost function Step(c: Config, s: State, a: Action): State
    requires Enabled(c, s, a)
  {
    match a
    case Prepare(at, audience, next, ok) =>
      // A discarded draft gives its ids back.
      if ok then s.(doc := PrepareDoc(s.doc, s.nextId, at, audience), nextId := next) else s
    case Confirm(j, ok) => s.(doc := if ok then ConfirmDoc(s.doc, j) else s.doc)
    case Cancel(j, ok) => s.(doc := if ok then CancelDoc(s.doc, j) else s.doc)
    case Retry(j, ok) => s.(doc := if ok then RetryDoc(s.doc, j) else s.doc)
    case StartTick(j, now, batch) =>
      s.(tick := Some(Tick(j, now, batch, Snapshot(s.doc, batch), None, false)))
    case Send(answer) =>
      s.(tick := Some(s.tick.value.(held := Some(answer))), log := s.log + [Entry(s.tick.value.todo[0], answer)])
    case StoreOutcome(ok) =>
      var t := s.tick.value;
      var r := t.todo[0];
      s.(doc := if ok then StoreDoc(c, s.doc, r, t.read[r], t.held.value, t.now) else s.doc,
         tick := Some(t.(todo := t.todo[1..], held := None, stopped := t.held.value == RateLimited)))
    case BackOff(ok) =>
      s.(doc := if ok then BackOffDoc(c, s.doc, s.tick.value.job, s.tick.value.now) else s.doc, tick := None)
    case Finalize(ok) => s.(doc := if ok then FinalizeDoc(s.doc, s.tick.value.job) else s.doc, tick := None)
    case Restart => s.(tick := None)
  }

  ghost predicate Valid(c: Config, s: State, actions: seq<Action>)
    decreases |actions|
  {
    actions == [] || (Enabled(c, s, actions[0]) && Valid(c, Step(c, s, actions[0]), actions[1..]))
  }

  ghost function Run(c: Config, s: State, actions: seq<Action>): State
    requires Valid(c, s, actions)
    decreases |actions|
  {
    if actions == [] then s else Run(c, Step(c, s, actions[0]), actions[1..])
  }

  function Start(): State {
    State(Document(map[], map[]), None, 0, [])
  }
}
