/**
 * The channel document: publication jobs, per-destination deliveries, and the pure parts of the
 * transactions that change them.  Job ids are modelled by their insertion rank, so "oldest first"
 * (creation time, then Map insertion order) is the order `Older` below.
 */
module PublicationModel {
  import opened Common

  type JobId = nat
  type DeliveryId = nat
  type Key = string
  type Destination = string

  datatype JobStatus = Pending | Publishing | Published | Failed | Skipped

  datatype Job = Job(key: Key, createdAt: int, status: JobStatus, startedAt: Option<int>,
                     completedAt: Option<int>, attemptCount: nat)

  datatype DeliveryStatus = Queued | Sending | Sent | Refusal | Unknown
  datatype FailureKind = Retryable | Permanent | Ambiguous

  datatype Delivery = Delivery(jobId: JobId, destination: Destination, status: DeliveryStatus,
                               attemptCount: nat, failure: Option<FailureKind>)

  /**
   * What a platform call can answer.  `Refused(Ambiguous)` is the unsuccessful result without a
   * failure kind: it is stored as a refusal, and it is not retried.
   */
  datatype Answer = Accepted | Refused(kind: FailureKind) | NoAnswer

  datatype Document = Document(jobs: map<JobId, Job>, deliveries: map<DeliveryId, Delivery>)

  // --- answers ---------------------------------------------------------------------------------

  function StatusOf(a: Answer): DeliveryStatus {
    match a
    case Accepted => Sent
    case Refused(_) => Refusal
    case NoAnswer => Unknown
  }

  function FailureOf(a: Answer): Option<FailureKind> {
    match a
    case Accepted => None
    case Refused(kind) => Some(kind)
    case NoAnswer => Some(Ambiguous)
  }

  /** The delivery record after one more platform call. */
  function AfterCall(record: Delivery, a: Answer): Delivery {
    record.(status := StatusOf(a), attemptCount := record.attemptCount + 1, failure := FailureOf(a))
  }

  predicate MayRetry(record: Delivery) {
    record.status == Refusal && record.failure == Some(Retryable)
  }

  /** A destination whose record is neither confirmed nor ambiguous may still be called. */
  predicate Open(status: DeliveryStatus) {
    status != Sent && status != Unknown
  }

  function NewDelivery(job: JobId, destination: Destination): Delivery {
    Delivery(job, destination, Queued, 0, None)
  }

  // --- jobs --------------------------------------------------------------------------------------

  function NewJob(key: Key, createdAt: int): Job {
    Job(key, createdAt, Pending, None, None, 0)
  }

  function ClaimedJob(job: Job, now: int): Job {
    job.(status := Publishing, attemptCount := job.attemptCount + 1,
         startedAt := if job.startedAt.None? then Some(now) else job.startedAt)
  }

  function FinishedJob(job: Job, status: JobStatus, now: int): Job {
    job.(status := status, completedAt := Some(now))
  }

  predicate IsFinished(job: Job) {
    job.status != Pending && job.status != Publishing
  }

  function FinishedIds(doc: Document): set<JobId> {
    set j | j in doc.jobs && IsFinished(doc.jobs[j])
  }

  function UnfinishedIds(doc: Document): set<JobId> {
    set j | j in doc.jobs && !IsFinished(doc.jobs[j])
  }

  ghost predicate HasRecord(doc: Document, job: JobId, destination: Destination, status: DeliveryStatus) {
    exists k :: k in doc.deliveries && doc.deliveries[k].jobId == job &&
                doc.deliveries[k].destination == destination && doc.deliveries[k].status == status
  }

  predicate AnyDelivery(doc: Document, job: JobId, status: DeliveryStatus) {
    exists k :: k in doc.deliveries && doc.deliveries[k].jobId == job && doc.deliveries[k].status == status
  }

  /** What restart recovery records for an interrupted job, from its delivery records alone. */
  function RecoveredStatus(doc: Document, job: JobId): JobStatus
    requires job in doc.jobs
  {
    if doc.jobs[job].status == Pending then Skipped
    else if AnyDelivery(doc, job, Sent) then Published
    else if AnyDelivery(doc, job, Unknown) then Failed
    else Skipped
  }

  // --- bounded history -----------------------------------------------------------------------------

  predicate Older(doc: Document, a: JobId, b: JobId)
    requires a in doc.jobs && b in doc.jobs
  {
    doc.jobs[a].createdAt < doc.jobs[b].createdAt ||
    (doc.jobs[a].createdAt == doc.jobs[b].createdAt && a < b)
  }

  function PruneCount(limit: nat, doc: Document): nat {
    if |doc.jobs| <= limit then 0
    else if |doc.jobs| - limit <= |FinishedIds(doc)| then |doc.jobs| - limit
    else |FinishedIds(doc)|
  }

  /** `gone` is what pruning removes: the oldest finished jobs, as many as needed and possible. */
  ghost predicate IsPrune(limit: nat, doc: Document, gone: set<JobId>) {
    && gone <= FinishedIds(doc)
    && |gone| == PruneCount(limit, doc)
    && (forall g, f :: g in gone && f in FinishedIds(doc) - gone ==> Older(doc, g, f))
  }

  /** Removing jobs removes their deliveries with them. */
  function Drop(doc: Document, gone: set<JobId>): Document {
    Document(map j | j in doc.jobs && j !in gone :: doc.jobs[j],
             map k | k in doc.deliveries && doc.deliveries[k].jobId !in gone :: doc.deliveries[k])
  }

  // --- the order of recovery -------------------------------------------------------------------------

  /** Interrupted jobs are resolved before the ones that never started, and the oldest of each kind first. */
  predicate RecoversBefore(doc: Document, a: JobId, b: JobId)
    requires a in doc.jobs && b in doc.jobs
  {
    if doc.jobs[a].status == doc.jobs[b].status then Older(doc, a, b) else doc.jobs[a].status == Publishing
  }

  /** The unfinished jobs that recovery resolves before this one. */
  function Before(doc: Document, j: JobId): set<JobId>
    requires j in doc.jobs
  {
    set i | i in UnfinishedIds(doc) && i != j && RecoversBefore(doc, i, j)
  }

  /** As many jobs as are above the history limit go as soon as they are resolved, the first ones. */
  predicate RecoveryDrops(limit: nat, doc: Document, j: JobId) {
    j in UnfinishedIds(doc) && |Before(doc, j)| + limit < |doc.jobs|
  }

  // --- document invariant --------------------------------------------------------------------------

  ghost predicate UniqueKeys(doc: Document) {
    forall i, j :: i in doc.jobs && j in doc.jobs && doc.jobs[i].key == doc.jobs[j].key ==> i == j
  }

  predicate SameTarget(a: Delivery, b: Delivery) {
    a.jobId == b.jobId && a.destination == b.destination
  }

  /** Every delivery belongs to a stored job, and a destination has one record per job. */
  ghost predicate DeliveriesOk(doc: Document) {
    && (forall k :: k in doc.deliveries ==> doc.deliveries[k].jobId in doc.jobs)
    && (forall k, l | k in doc.deliveries && l in doc.deliveries ::
          SameTarget(doc.deliveries[k], doc.deliveries[l]) ==> k == l)
  }

  ghost predicate Bounded(limit: nat, doc: Document) {
    |doc.jobs| <= limit || |doc.jobs| <= |UnfinishedIds(doc)|
  }

  ghost predicate DocumentOk(limit: nat, doc: Document) {
    UniqueKeys(doc) && DeliveriesOk(doc) && Bounded(limit, doc)
  }

  lemma OldestGoFirst(limit: nat, doc: Document, gone: set<JobId>, g: JobId, f: JobId)
    requires IsPrune(limit, doc, gone) && g in gone && f in FinishedIds(doc) && f !in gone
    ensures Older(doc, g, f)
  {
    assert f in FinishedIds(doc) - gone;
  }

  /** The one pruning choice there is: history retention is deterministic. */
  lemma PruneIsUnique(limit: nat, doc: Document, a: set<JobId>, b: set<JobId>)
    requires IsPrune(limit, doc, a) && IsPrune(limit, doc, b)
    ensures a == b
  {
    if a != b {
      if a <= b {
        SubsetSameSize(a, b);
      } else if b <= a {
        SubsetSameSize(b, a);
      } else {
        var x :| x in a && x !in b;
        var y :| y in b && y !in a;
        OldestGoFirst(limit, doc, a, x, y);
        OldestGoFirst(limit, doc, b, y, x);
        assert false;
      }
    }
  }

  lemma SubsetSameSize<T>(a: set<T>, b: set<T>)
    requires a <= b && |a| == |b|
    ensures a == b
  {
    assert |b - a| == |b| - |a|;
    assert b - a == {};
  }

  lemma Partition(doc: Document)
    ensures |doc.jobs| == |FinishedIds(doc)| + |UnfinishedIds(doc)|
  {
    assert doc.jobs.Keys == FinishedIds(doc) + UnfinishedIds(doc);
    assert FinishedIds(doc) !! UnfinishedIds(doc);
  }

  /** Pruning restores the size bound, keeps unfinished work, and leaves no orphan delivery. */
  lemma PruneKeepsDocument(limit: nat, doc: Document, gone: set<JobId>)
    requires UniqueKeys(doc) && DeliveriesOk(doc) && IsPrune(limit, doc, gone)
    ensures DocumentOk(limit, Drop(doc, gone))
    ensures UnfinishedIds(Drop(doc, gone)) == UnfinishedIds(doc)
    ensures |Drop(doc, gone).jobs| <= limit || FinishedIds(Drop(doc, gone)) == {}
  {
    var d := Drop(doc, gone);
    Partition(doc);
    Partition(d);
    assert d.jobs.Keys == doc.jobs.Keys - gone;
    assert |d.jobs.Keys| == |doc.jobs.Keys| - |gone|;
    assert UnfinishedIds(d) == UnfinishedIds(doc);
  }

  /** Below the history limit pruning removes nothing. */
  lemma QuietWrite(limit: nat, doc: Document)
    requires |doc.jobs| <= limit
    ensures IsPrune(limit, doc, {}) && Drop(doc, {}) == doc
  {
    var t := Drop(doc, {});
    assert t.jobs == doc.jobs && t.deliveries == doc.deliveries;
  }

  lemma OnlyOneToPrune(limit: nat, doc: Document, i: JobId, gone: set<JobId>)
    requires FinishedIds(doc) == {i} && |doc.jobs| > limit
    ensures IsPrune(limit, doc, gone) <==> gone == {i}
  {
    if |gone| == 1 && gone <= {i} { SubsetSameSize(gone, {i}); }
  }

  lemma AllUnfinished(doc: Document, limit: nat)
    requires Bounded(limit, doc) && |doc.jobs| > limit
    ensures UnfinishedIds(doc) == doc.jobs.Keys
  {
    assert |doc.jobs| == |doc.jobs.Keys|;
    assert UnfinishedIds(doc) <= doc.jobs.Keys;
    if UnfinishedIds(doc) != doc.jobs.Keys {
      var x :| x in doc.jobs.Keys && x !in UnfinishedIds(doc);
      Larger(UnfinishedIds(doc), doc.jobs.Keys, x);
    }
  }

  lemma Larger<T>(a: set<T>, b: set<T>, x: T)
    requires a <= b && x in b && x !in a
    ensures |a| < |b|
  {
    assert b == a + (b - a) && x in b - a;
    assert |b| == |a| + |b - a|;
  }

  /** Without the first of all its jobs, each other job of a document moves up. */
  lemma FirstGone(doc: Document, rest: Document, i: JobId, j: JobId)
    requires UnfinishedIds(doc) == doc.jobs.Keys && i in doc.jobs && Before(doc, i) == {} && rest.jobs == doc.jobs - {i}
    requires j in doc.jobs && j != i
    ensures |rest.jobs| == |doc.jobs| - 1 && |Before(rest, j)| == |Before(doc, j)| - 1 && j in UnfinishedIds(rest)
  {
    assert rest.jobs.Keys == doc.jobs.Keys - {i};
    assert |rest.jobs.Keys| == |doc.jobs.Keys| - 1;
    assert Before(doc, j) == Before(rest, j) + {i} by {
      assert j !in Before(doc, i);
    }
  }

  // --- oldest first ----------------------------------------------------------------------------------

  ghost predicate OldestOf(doc: Document, ids: set<JobId>, j: JobId)
    requires ids <= doc.jobs.Keys
  {
    j in ids && forall f :: f in ids && f != j ==> Older(doc, j, f)
  }

  lemma {:induction false} OldestExists(doc: Document, ids: set<JobId>)
    requires ids <= doc.jobs.Keys && ids != {}
    ensures exists j :: OldestOf(doc, ids, j)
    decreases |ids|
  {
    var x :| x in ids;
    if ids == {x} {
      assert OldestOf(doc, ids, x);
    } else {
      OldestExists(doc, ids - {x});
      var j :| OldestOf(doc, ids - {x}, j);
      var oldest := if Older(doc, x, j) then x else j;
      forall f | f in ids && f != oldest ensures Older(doc, oldest, f) {
        if f != x && f != j {
          assert f in ids - {x} && Older(doc, j, f);
        }
      }
      assert OldestOf(doc, ids, oldest);
    }
  }

  /** While a job is unfinished, recovery has a next one. */
  lemma NextToRecover(doc: Document) returns (j: JobId)
    requires UnfinishedIds(doc) != {}
    ensures j in UnfinishedIds(doc) && Before(doc, j) == {}
  {
    var interrupted := set i | i in doc.jobs && doc.jobs[i].status == Publishing;
    var ids := if interrupted == {} then UnfinishedIds(doc) else interrupted;
    OldestExists(doc, ids);
    j :| OldestOf(doc, ids, j);
    forall i | i in UnfinishedIds(doc) && i != j ensures !RecoversBefore(doc, i, j) {
      assert i !in interrupted ==> doc.jobs[i].status == Pending;
      assert j !in interrupted ==> doc.jobs[j].status == Pending;
      assert i in ids ==> Older(doc, j, i);
    }
  }
}
