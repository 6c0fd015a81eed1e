/** Safety of the channel engine over every interleaving, failed write, crash and recovery. */
module PublicationSafety {
  import opened Common
  import opened PublicationModel
  import opened PublicationMachine

  // --- the invariant -------------------------------------------------------------------------------

  ghost predicate IdsBelow(doc: Document, bound: nat) {
    (forall j :: j in doc.jobs ==> j < bound) && (forall k :: k in doc.deliveries ==> k < bound)
  }

  /** What a delivery lane knows about the stored record of its job and destination. */
  ghost predicate LaneOk(c: Config, doc: Document, j: JobId, d: Destination, lane: Lane) {
    match lane
    case Idle => true
    case Fetched(None, record) =>
      record == NewDelivery(j, d) && RecordIds(doc, j, d) == {}
    case Fetched(Some(k), record) =>
      k in RecordIds(doc, j, d) && doc.deliveries[k] == record && Open(record.status)
    case Ready(k, record, attempt) =>
      && 1 <= attempt <= c.maxAttempts
      && record.jobId == j && record.destination == d
      && k in RecordIds(doc, j, d) && Open(doc.deliveries[k].status)
    case Answered(k, record, attempt) =>
      && 1 <= attempt <= c.maxAttempts
      && record.jobId == j && record.destination == d
      && k in RecordIds(doc, j, d) && Open(doc.deliveries[k].status)
    case Done(k, record) =>
      k in RecordIds(doc, j, d) && doc.deliveries[k] == record
  }

  ghost predicate ExecutorOk(c: Config, doc: Document, x: Executor) {
    && x.job in doc.jobs && doc.jobs[x.job].status == Publishing
    && (x.deciding ==> x.lanes == map[])
    && (!x.deciding ==> x.lanes.Keys == c.destinations)
    && forall d :: d in x.lanes ==> LaneOk(c, doc, x.job, d, x.lanes[d])
  }

  ghost predicate ExecutorsOk(c: Config, s: State) {
    && (forall e :: e in s.executors ==> e < s.nextId && ExecutorOk(c, s.mem, s.executors[e]))
    && (forall e, f | e in s.executors && f in s.executors :: s.executors[e].job == s.executors[f].job ==> e == f)
    && (s.recovering ==> s.executors == map[])
  }

  ghost predicate Held(s: State, j: JobId) {
    exists e :: e in s.executors && s.executors[e].job == j
  }

  /** Outside recovery a PUBLISHING job always has an executor: nothing is stuck. */
  ghost predicate NothingStuck(s: State) {
    !s.recovering ==>
      forall j :: j in s.mem.jobs && s.mem.jobs[j].status == Publishing ==> Held(s, j)
  }

  ghost predicate Inv(c: Config, s: State) {
    && c.maxAttempts >= 1
    && DocumentOk(c.historyLimit, s.mem) && DocumentOk(c.historyLimit, s.disk)
    && IdsBelow(s.mem, s.nextId) && IdsBelow(s.disk, s.nextId)
    && ExecutorsOk(c, s)
    && NothingStuck(s)
  }

  // --- frames ----------------------------------------------------------------------------------------

  /** Two documents agree on one job's deliveries. */
  ghost predicate SameDeliveries(a: Document, b: Document, j: JobId) {
    && (forall k :: k in a.deliveries && a.deliveries[k].jobId == j ==> k in b.deliveries && b.deliveries[k] == a.deliveries[k])
    && (forall k :: k in b.deliveries && b.deliveries[k].jobId == j ==> k in a.deliveries && b.deliveries[k] == a.deliveries[k])
  }

  lemma ExecutorFrame(c: Config, a: Document, b: Document, x: Executor)
    requires ExecutorOk(c, a, x) && SameDeliveries(a, b, x.job)
    requires x.job in b.jobs && b.jobs[x.job].status == Publishing
    ensures ExecutorOk(c, b, x)
  {
    forall d | d in x.lanes ensures LaneOk(c, b, x.job, d, x.lanes[d]) {
    }
  }

  /** Committing a well-formed document keeps both stored documents well formed. */
  lemma CommitKeepsDocuments(c: Config, s: State, doc: Document, w: Write, bound: nat)
    requires DocumentOk(c.historyLimit, s.disk) && IdsBelow(s.disk, s.nextId) && s.nextId <= bound
    requires UniqueKeys(doc) && DeliveriesOk(doc) && IsPrune(c.historyLimit, doc, w.gone)
    requires IdsBelow(doc, bound)
    ensures DocumentOk(c.historyLimit, Commit(s, doc, w).mem) && DocumentOk(c.historyLimit, Commit(s, doc, w).disk)
    ensures IdsBelow(Commit(s, doc, w).mem, bound) && IdsBelow(Commit(s, doc, w).disk, bound)
  {
    PruneKeepsDocument(c.historyLimit, doc, w.gone);
  }

  /** Executors of other jobs do not notice a transaction on job `j`. */
  lemma OthersKept(c: Config, s: State, doc: Document, gone: set<JobId>, j: JobId)
    requires ExecutorsOk(c, s) && gone <= FinishedIds(doc)
    requires forall i :: i in s.mem.jobs && i != j ==> i in doc.jobs && doc.jobs[i] == s.mem.jobs[i]
    requires forall i :: i != j ==> SameDeliveries(s.mem, doc, i)
    ensures forall e :: e in s.executors && s.executors[e].job != j ==> ExecutorOk(c, Drop(doc, gone), s.executors[e])
  {
    forall e | e in s.executors && s.executors[e].job != j
      ensures ExecutorOk(c, Drop(doc, gone), s.executors[e])
    {
      var i := s.executors[e].job;
      assert i in UnfinishedIds(doc);
      assert SameDeliveries(s.mem, doc, i);
      assert SameDeliveries(s.mem, Drop(doc, gone), i);
      ExecutorFrame(c, s.mem, Drop(doc, gone), s.executors[e]);
    }
  }

  lemma SetJobFrame(doc: Document, j: JobId, job: Job)
    requires UniqueKeys(doc) && DeliveriesOk(doc)
    requires forall i :: i in doc.jobs && doc.jobs[i].key == job.key ==> i == j
    ensures UniqueKeys(SetJob(doc, j, job)) && DeliveriesOk(SetJob(doc, j, job))
    ensures forall i :: SameDeliveries(doc, SetJob(doc, j, job), i)
  {
    var t := SetJob(doc, j, job);
    assert t.deliveries == doc.deliveries;
  }

  lemma StillHeld(s: State, t: State, j: JobId)
    requires Held(s, j)
    requires forall e :: e in s.executors && s.executors[e].job == j ==> e in t.executors && t.executors[e].job == j
    ensures Held(t, j)
  {
    var e :| e in s.executors && s.executors[e].job == j;
    assert t.executors[e].job == j;
  }

  ghost predicate IsPublishing(doc: Document, j: JobId) {
    j in doc.jobs && doc.jobs[j].status == Publishing
  }

  lemma StuckFrame(s: State, t: State)
    requires NothingStuck(s) && t.recovering == s.recovering
    requires forall j :: IsPublishing(t.mem, j) ==> IsPublishing(s.mem, j)
    requires forall e :: e in s.executors && IsPublishing(t.mem, s.executors[e].job) ==>
               e in t.executors && t.executors[e].job == s.executors[e].job
    ensures NothingStuck(t)
  {
    if !t.recovering {
      forall j | j in t.mem.jobs && t.mem.jobs[j].status == Publishing ensures Held(t, j) {
        assert IsPublishing(t.mem, j);
        StillHeld(s, t, j);
      }
    }
  }

  // --- every step keeps the invariant ------------------------------------------------------------------

  lemma CreateKeeps(c: Config, s: State, a: Action)
    requires Inv(c, s) && a.Create? && Enabled(c, s, a)
    ensures Inv(c, Step(c, s, a))
  {
    var doc := Written(s, a);
    SetJobFrame(s.mem, s.nextId, NewJob(a.key, a.at));
    CommitKeepsDocuments(c, s, doc, a.w, s.nextId + 1);
    OthersKept(c, s, doc, a.w.gone, s.nextId);
    StuckFrame(s, Step(c, s, a));
  }

  lemma ClaimDocuments(c: Config, s: State, a: Action)
    requires Inv(c, s) && a.Claim? && Enabled(c, s, a)
    ensures DocumentOk(c.historyLimit, Step(c, s, a).mem) && DocumentOk(c.historyLimit, Step(c, s, a).disk)
    ensures IdsBelow(Step(c, s, a).mem, s.nextId + 1) && IdsBelow(Step(c, s, a).disk, s.nextId + 1)
    ensures forall e :: e in s.executors && s.executors[e].job != a.job ==>
              ExecutorOk(c, Step(c, s, a).mem, s.executors[e])
    ensures a.job in Step(c, s, a).mem.jobs && Step(c, s, a).mem.jobs[a.job].status == Publishing
    ensures forall j :: j in Step(c, s, a).mem.jobs && j != a.job ==> j in s.mem.jobs && Step(c, s, a).mem.jobs[j] == s.mem.jobs[j]
  {
    var doc := Written(s, a);
    SetJobFrame(s.mem, a.job, ClaimedJob(s.mem.jobs[a.job], a.at));
    CommitKeepsDocuments(c, s, doc, a.w, s.nextId + 1);
    OthersKept(c, s, doc, a.w.gone, a.job);
  }

  /** The new executor holds the claimed job, which nobody held. */
  lemma ClaimRest(c: Config, s: State, t: State, j: JobId)
    requires ExecutorsOk(c, s) && NothingStuck(s) && !s.recovering && !t.recovering
    requires forall e :: e in s.executors ==> s.executors[e].job != j && ExecutorOk(c, t.mem, s.executors[e])
    requires IsPublishing(t.mem, j)
    requires forall i :: IsPublishing(t.mem, i) && i != j ==> IsPublishing(s.mem, i)
    requires t.executors == s.executors[s.nextId := Executor(j, true, map[])] && t.nextId == s.nextId + 1
    ensures ExecutorsOk(c, t) && NothingStuck(t)
  {
    forall i | i in t.mem.jobs && t.mem.jobs[i].status == Publishing ensures Held(t, i) {
      assert IsPublishing(t.mem, i);
      if i == j {
        assert t.executors[s.nextId].job == i;
      } else {
        assert IsPublishing(s.mem, i);
        StillHeld(s, t, i);
      }
    }
  }

  lemma ClaimKeeps(c: Config, s: State, a: Action)
    requires Inv(c, s) && a.Claim? && Enabled(c, s, a)
    ensures Inv(c, Step(c, s, a))
  {
    ClaimDocuments(c, s, a);
    forall e | e in s.executors ensures s.executors[e].job != a.job {
      assert ExecutorOk(c, s.mem, s.executors[e]);
    }
    ClaimRest(c, s, Step(c, s, a), a.job);
  }

  /** Ending an executor (declined, failed or delivered) releases its job. */
  lemma ReleaseDocuments(c: Config, s: State, e: ExecutorId, doc: Document, w: Write, job: Job)
    requires Inv(c, s) && e in s.executors && IsFinished(job)
    requires s.executors[e].job in s.mem.jobs && job.key == s.mem.jobs[s.executors[e].job].key
    requires doc == SetJob(s.mem, s.executors[e].job, job) && IsPrune(c.historyLimit, doc, w.gone)
    ensures DocumentOk(c.historyLimit, Commit(s, doc, w).mem) && DocumentOk(c.historyLimit, Commit(s, doc, w).disk)
    ensures IdsBelow(Commit(s, doc, w).mem, s.nextId) && IdsBelow(Commit(s, doc, w).disk, s.nextId)
    ensures forall f :: f in s.executors && f != e ==> ExecutorOk(c, Drop(doc, w.gone), s.executors[f])
  {
    var j := s.executors[e].job;
    SetJobFrame(s.mem, j, job);
    CommitKeepsDocuments(c, s, doc, w, s.nextId);
    OthersKept(c, s, doc, w.gone, j);
  }

  lemma ReleaseRest(c: Config, s: State, e: ExecutorId, doc: Document, w: Write, job: Job)
    requires ExecutorsOk(c, s) && NothingStuck(s) && e in s.executors && IsFinished(job)
    requires doc == SetJob(s.mem, s.executors[e].job, job)
    requires forall f :: f in s.executors && f != e ==> ExecutorOk(c, Drop(doc, w.gone), s.executors[f])
    ensures ExecutorsOk(c, Commit(s, doc, w).(executors := s.executors - {e}))
    ensures NothingStuck(Commit(s, doc, w).(executors := s.executors - {e}))
  {
    StuckFrame(s, Commit(s, doc, w).(executors := s.executors - {e}));
  }

  lemma ReleaseKeeps(c: Config, s: State, e: ExecutorId, doc: Document, w: Write, job: Job)
    requires Inv(c, s) && e in s.executors && IsFinished(job)
    requires s.executors[e].job in s.mem.jobs && job.key == s.mem.jobs[s.executors[e].job].key
    requires doc == SetJob(s.mem, s.executors[e].job, job) && IsPrune(c.historyLimit, doc, w.gone)
    ensures Inv(c, Commit(s, doc, w).(executors := s.executors - {e}))
  {
    ReleaseDocuments(c, s, e, doc, w, job);
    ReleaseRest(c, s, e, doc, w, job);
  }

  lemma RecoverKeeps(c: Config, s: State, a: Action)
    requires Inv(c, s) && a.RecoverJob? && Enabled(c, s, a)
    ensures Inv(c, Step(c, s, a))
  {
    SetJobFrame(s.mem, a.job, FinishedJob(s.mem.jobs[a.job], RecoveredStatus(s.mem, a.job), a.at));
    CommitKeepsDocuments(c, s, Written(s, a), a.w, s.nextId);
  }

  /** One executor changes, the documents do not. */
  lemma ExecutorMoves(c: Config, s: State, e: ExecutorId, y: Executor)
    requires ExecutorsOk(c, s) && NothingStuck(s) && e in s.executors
    requires y.job == s.executors[e].job && ExecutorOk(c, s.mem, y)
    ensures ExecutorsOk(c, s.(executors := s.executors[e := y])) && NothingStuck(s.(executors := s.executors[e := y]))
  {
    ExecutorReplaced(c, s, e, y);
    MoveUnsticks(s, e, y);
  }

  lemma ExecutorReplaced(c: Config, s: State, e: ExecutorId, y: Executor)
    requires ExecutorsOk(c, s) && e in s.executors && y.job == s.executors[e].job && ExecutorOk(c, s.mem, y)
    ensures ExecutorsOk(c, s.(executors := s.executors[e := y]))
  {
    var t := s.(executors := s.executors[e := y]);
    forall f | f in t.executors ensures f < t.nextId && ExecutorOk(c, t.mem, t.executors[f]) {
      if f != e {
        assert ExecutorOk(c, s.mem, s.executors[f]);
      }
    }
    forall f, g | f in t.executors && g in t.executors && t.executors[f].job == t.executors[g].job ensures f == g {
      assert s.executors[f].job == s.executors[g].job;
    }
  }

  lemma MoveUnsticks(s: State, e: ExecutorId, y: Executor)
    requires NothingStuck(s) && e in s.executors && y.job == s.executors[e].job
    ensures NothingStuck(s.(executors := s.executors[e := y]))
  {
    var t := s.(executors := s.executors[e := y]);
    forall j | !t.recovering && j in t.mem.jobs && t.mem.jobs[j].status == Publishing ensures Held(t, j) {
      assert Held(s, j);
      StillHeld(s, t, j);
    }
  }

  lemma LaneMoveKeeps(c: Config, s: State, e: ExecutorId, d: Destination, lane: Lane)
    requires Inv(c, s) && HasLane(s, e, d) && LaneOk(c, s.mem, s.executors[e].job, d, lane)
    ensures Inv(c, SetLane(s, e, d, lane))
  {
    ExecutorMoves(c, s, e, s.executors[e].(lanes := s.executors[e].lanes[d := lane]));
  }

  // --- storing a delivery record -----------------------------------------------------------------------

  /** `k` is the record of its target, or a fresh id for a target without one. */
  ghost predicate Fits(doc: Document, k: DeliveryId, record: Delivery) {
    var ids := RecordIds(doc, record.jobId, record.destination);
    record.jobId in doc.jobs && (k in ids || (k !in doc.deliveries && ids == {}))
  }

  lemma OnlyRecord(doc: Document, k: DeliveryId, record: Delivery, x: DeliveryId)
    requires DeliveriesOk(doc) && Fits(doc, k, record)
    requires x == k || (x in doc.deliveries && SameTarget(doc.deliveries[x], record))
    ensures x == k
  {
    if x in doc.deliveries && SameTarget(doc.deliveries[x], record) {
      assert x in RecordIds(doc, record.jobId, record.destination);
      assert SameTarget(doc.deliveries[x], doc.deliveries[k]);
    }
  }

  lemma OthersSame(doc: Document, k: DeliveryId, record: Delivery, i: JobId)
    requires Fits(doc, k, record) && i != record.jobId
    ensures SameDeliveries(doc, SetDelivery(doc, k, record), i)
  {
    var t := SetDelivery(doc, k, record);
    assert k in doc.deliveries ==> doc.deliveries[k].jobId == record.jobId;
    forall x | x in t.deliveries && t.deliveries[x].jobId == i
      ensures x in doc.deliveries && t.deliveries[x] == doc.deliveries[x]
    {
      assert x != k;
    }
  }

  lemma SetDeliveryFrame(doc: Document, k: DeliveryId, record: Delivery)
    requires UniqueKeys(doc) && DeliveriesOk(doc) && Fits(doc, k, record)
    ensures UniqueKeys(SetDelivery(doc, k, record)) && DeliveriesOk(SetDelivery(doc, k, record))
    ensures forall i :: i != record.jobId ==> SameDeliveries(doc, SetDelivery(doc, k, record), i)
  {
    forall i | i != record.jobId ensures SameDeliveries(doc, SetDelivery(doc, k, record), i) {
      OthersSame(doc, k, record, i);
    }
    SetDeliveryOk(doc, k, record);
  }

  lemma SetDeliveryOk(doc: Document, k: DeliveryId, record: Delivery)
    requires DeliveriesOk(doc) && Fits(doc, k, record)
    ensures DeliveriesOk(SetDelivery(doc, k, record))
  {
    var t := SetDelivery(doc, k, record);
    forall x, y | x in t.deliveries && y in t.deliveries && SameTarget(t.deliveries[x], t.deliveries[y])
      ensures x == y
    {
      if x != k && y != k {
        assert SameTarget(doc.deliveries[x], doc.deliveries[y]);
      } else {
        OnlyRecord(doc, k, record, if x == k && y != k then y else if y == k && x != k then x else k);
      }
    }
  }

  /** Lanes of the other destinations of the same job keep their record. */
  lemma SiblingLane(c: Config, doc: Document, k: DeliveryId, record: Delivery, d: Destination, lane: Lane)
    requires LaneOk(c, doc, record.jobId, d, lane) && d != record.destination && Fits(doc, k, record)
    ensures LaneOk(c, SetDelivery(doc, k, record), record.jobId, d, lane)
  {
    var t := SetDelivery(doc, k, record);
    assert k !in RecordIds(doc, record.jobId, d);
    assert RecordIds(t, record.jobId, d) == RecordIds(doc, record.jobId, d);
  }

  lemma StoringExecutor(c: Config, doc: Document, x: Executor, d: Destination, k: DeliveryId, record: Delivery,
                        lane: Lane, gone: set<JobId>)
    requires ExecutorOk(c, doc, x) && !x.deciding && d in x.lanes && Fits(doc, k, record)
    requires record.jobId == x.job && record.destination == d
    requires LaneOk(c, SetDelivery(doc, k, record), x.job, d, lane)
    requires gone <= FinishedIds(SetDelivery(doc, k, record))
    ensures ExecutorOk(c, Drop(SetDelivery(doc, k, record), gone), x.(lanes := x.lanes[d := lane]))
  {
    var t := SetDelivery(doc, k, record);
    var y := x.(lanes := x.lanes[d := lane]);
    forall d' | d' in y.lanes ensures LaneOk(c, t, y.job, d', y.lanes[d']) {
      if d' != d {
        SiblingLane(c, doc, k, record, d', x.lanes[d']);
      }
    }
    ExecutorFrame(c, t, Drop(t, gone), y);
  }

  /** A lane stores its delivery record; the job is PUBLISHING, so pruning cannot take it. */
  lemma LaneStoreKeeps(c: Config, s: State, e: ExecutorId, d: Destination, k: DeliveryId, record: Delivery,
                       lane: Lane, w: Write, bound: nat)
    requires Inv(c, s) && HasLane(s, e, d) && s.nextId <= bound && k < bound
    requires record.jobId == s.executors[e].job && record.destination == d && Fits(s.mem, k, record)
    requires IsPrune(c.historyLimit, SetDelivery(s.mem, k, record), w.gone)
    requires LaneOk(c, SetDelivery(s.mem, k, record), record.jobId, d, lane)
    ensures Inv(c, Commit(SetLane(s, e, d, lane), SetDelivery(s.mem, k, record), w).(nextId := bound))
  {
    var doc := SetDelivery(s.mem, k, record);
    SetDeliveryFrame(s.mem, k, record);
    CommitKeepsDocuments(c, s, doc, w, bound);
    OthersKept(c, s, doc, w.gone, record.jobId);
    StoringExecutor(c, s.mem, s.executors[e], d, k, record, lane, w.gone);
    LaneStoreRest(c, s, e, d, lane, doc, w, bound);
  }

  lemma LaneStoreRest(c: Config, s: State, e: ExecutorId, d: Destination, lane: Lane, doc: Document, w: Write, bound: nat)
    requires ExecutorsOk(c, s) && NothingStuck(s) && HasLane(s, e, d) && s.nextId <= bound
    requires doc.jobs == s.mem.jobs
    requires ExecutorOk(c, Drop(doc, w.gone), SetLane(s, e, d, lane).executors[e])
    requires forall f :: f in s.executors && s.executors[f].job != s.executors[e].job ==>
               ExecutorOk(c, Drop(doc, w.gone), s.executors[f])
    ensures ExecutorsOk(c, Commit(SetLane(s, e, d, lane), doc, w).(nextId := bound))
    ensures NothingStuck(Commit(SetLane(s, e, d, lane), doc, w).(nextId := bound))
  {
    var t := Commit(SetLane(s, e, d, lane), doc, w).(nextId := bound);
    assert !s.recovering;
    assert forall f :: f in t.executors ==> f in s.executors && t.executors[f].job == s.executors[f].job;
    forall i | i in t.mem.jobs && t.mem.jobs[i].status == Publishing ensures Held(t, i) {
      StillHeld(s, t, i);
    }
  }

  lemma DeliverKeeps(c: Config, s: State, a: Action)
    requires Inv(c, s) && a.Deliver? && Enabled(c, s, a)
    ensures Inv(c, Step(c, s, a))
  {
    var x := s.executors[a.executor];
    ExecutorMoves(c, s, a.executor, x.(deciding := false, lanes := map d | d in c.destinations :: Idle));
  }

  lemma BeginKeeps(c: Config, s: State, a: Action)
    requires Inv(c, s) && a.Begin? && Enabled(c, s, a)
    ensures Inv(c, Step(c, s, a))
  {
    var e, d := a.executor, a.destination;
    var lane := LaneOf(s, e, d);
    var k := if lane.found.Some? then lane.found.value else s.nextId;
    assert LaneOk(c, s.mem, s.executors[e].job, d, lane);
    LaneStoreKeeps(c, s, e, d, k, lane.record.(status := Sending), Ready(k, lane.record, 1), a.w, s.nextId + 1);
  }

  lemma NextLane(c: Config, doc: Document, j: JobId, d: Destination, lane: Lane, next: Lane)
    requires lane.Answered? && LaneOk(c, doc, j, d, lane) && j in doc.jobs
    requires next == if MayRetry(lane.record) && lane.attempt < c.maxAttempts
                     then Ready(lane.id, lane.record, lane.attempt + 1) else Done(lane.id, lane.record)
    ensures Fits(doc, lane.id, lane.record)
    ensures LaneOk(c, SetDelivery(doc, lane.id, lane.record), j, d, next)
  {
  }

  lemma StoreKeeps(c: Config, s: State, e: ExecutorId, d: Destination, w: Write)
    requires Inv(c, s) && Enabled(c, s, Store(e, d, w))
    ensures Inv(c, Step(c, s, Store(e, d, w)))
  {
    var lane := s.executors[e].lanes[d];
    var j := s.executors[e].job;
    var next := if MayRetry(lane.record) && lane.attempt < c.maxAttempts
                then Ready(lane.id, lane.record, lane.attempt + 1) else Done(lane.id, lane.record);
    assert LaneOk(c, s.mem, j, d, lane);
    NextLane(c, s.mem, j, d, lane, next);
    LaneStoreKeeps(c, s, e, d, lane.id, lane.record, next, w, s.nextId);
    StoreStep(c, s, e, d, w, next);
  }

  lemma StoreStep(c: Config, s: State, e: ExecutorId, d: Destination, w: Write, next: Lane)
    requires Guard(s, Store(e, d, w))
    requires next == var lane := LaneOf(s, e, d);
                     if MayRetry(lane.record) && lane.attempt < c.maxAttempts
                     then Ready(lane.id, lane.record, lane.attempt + 1) else Done(lane.id, lane.record)
    ensures Step(c, s, Store(e, d, w)) ==
            Commit(SetLane(s, e, d, next), SetDelivery(s.mem, LaneOf(s, e, d).id, LaneOf(s, e, d).record), w)
            .(nextId := s.nextId)
  {
  }

  lemma LaneReadKeeps(c: Config, s: State, a: Action)
    requires Inv(c, s) && (a.Fetch? || a.Publish?) && Enabled(c, s, a)
    ensures Inv(c, Step(c, s, a))
  {
    var e, d := a.executor, a.destination;
    var lane := LaneOf(s, e, d);
    assert LaneOk(c, s.mem, s.executors[e].job, d, lane);
    if a.Fetch? {
      LaneMoveKeeps(c, s, e, d, FetchLane(s, s.executors[e].job, d));
    } else {
      CalledLane(c, s.mem, s.executors[e].job, d, lane, a.answer);
      LaneMoveKeeps(c, s, e, d, Answered(lane.id, AfterCall(lane.record, a.answer), lane.attempt));
    }
  }

  lemma CalledLane(c: Config, doc: Document, j: JobId, d: Destination, lane: Lane, answer: Answer)
    requires lane.Ready? && LaneOk(c, doc, j, d, lane)
    ensures LaneOk(c, doc, j, d, Answered(lane.id, AfterCall(lane.record, answer), lane.attempt))
  {
  }

  lemma ResumeKeeps(c: Config, s: State, a: Action)
    requires Inv(c, s) && a.Resume? && Enabled(c, s, a)
    ensures Inv(c, Step(c, s, a))
  {
    forall j | j in s.mem.jobs ensures s.mem.jobs[j].status != Publishing {
      assert j !in UnfinishedIds(s.mem);
    }
  }

  lemma StepKeeps(c: Config, s: State, a: Action)
    requires Inv(c, s) && Enabled(c, s, a)
    ensures Inv(c, Step(c, s, a))
  {
    match a
    case Create(_, _, _) => CreateKeeps(c, s, a);
    case Claim(_, _, _) => ClaimKeeps(c, s, a);
    case Decline(e, failed, at, w) =>
      var j := s.executors[e].job;
      ReleaseKeeps(c, s, e, Written(s, a), w, FinishedJob(s.mem.jobs[j], if failed then Failed else Skipped, at));
    case Finish(e, at, w) =>
      var j := s.executors[e].job;
      ReleaseKeeps(c, s, e, Written(s, a), w, FinishedJob(s.mem.jobs[j], DeliveredStatus(s.executors[e]), at));
    case Deliver(e) => DeliverKeeps(c, s, a);
    case Fetch(_, _) => LaneReadKeeps(c, s, a);
    case Publish(_, _, _) => LaneReadKeeps(c, s, a);
    case Begin(_, _, _) => BeginKeeps(c, s, a);
    case Store(e, d, w) => StoreKeeps(c, s, e, d, w);
    case RecoverJob(_, _, _) => RecoverKeeps(c, s, a);
    case Resume => ResumeKeeps(c, s, a);
    case _ =>
  }
}
