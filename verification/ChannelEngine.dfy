/**
 * The channel engine in its imperative form: the publication store that owns the two maps, pruning,
 * the transaction bodies, the delivery attempt loop and restart recovery.  Each method's postcondition
 * gives the new document with the functions the interleaving model uses for the same step.
 */
module ChannelEngine {
  import opened Common
  import opened PublicationModel
  import opened PublicationMachine
  import opened PublicationSafety
  import opened PublicationTheorems

  // --- pruning order -------------------------------------------------------------------------------------

  /** The finished jobs listed oldest first. */
  ghost predicate ByAge(doc: Document, order: seq<JobId>) {
    && (forall i :: 0 <= i < |order| ==> order[i] in doc.jobs)
    && (forall i, k :: 0 <= i < k < |order| ==> Older(doc, order[i], order[k]))
  }

  function Elements(order: seq<JobId>): set<JobId> {
    set j | j in order
  }

  lemma {:induction false} PrefixSize(doc: Document, order: seq<JobId>)
    requires ByAge(doc, order)
    ensures |Elements(order)| == |order|
    decreases |order|
  {
    if order != [] {
      var n := |order| - 1;
      PrefixSize(doc, order[..n]);
      assert Elements(order) == Elements(order[..n]) + {order[n]};
      assert order[n] !in Elements(order[..n]);
    }
  }

  lemma PrefixIsPrune(limit: nat, doc: Document, order: seq<JobId>, n: nat)
    requires ByAge(doc, order) && Elements(order) == FinishedIds(doc) && n <= |order|
    requires n == PruneCount(limit, doc)
    ensures IsPrune(limit, doc, Elements(order[..n]))
  {
    PrefixSize(doc, order[..n]);
    var gone := Elements(order[..n]);
    forall g, f | g in gone && f in FinishedIds(doc) - gone ensures Older(doc, g, f) {
      var i :| 0 <= i < n && order[i] == g;
      assert f in Elements(order);
      var k :| 0 <= k < |order| && order[k] == f;
      assert forall m :: 0 <= m < n ==> order[..n][m] == order[m] && order[m] in gone;
    }
  }

  // --- retry arithmetic ------------------------------------------------------------------------------------

  function Pow2(n: nat): nat {
    if n == 0 then 1 else 2 * Pow2(n - 1)
  }

  datatype ClaimResult = NotFound | Taken | Claimed(job: Job)

  class PublicationStore {
    const historyLimit: nat
    var jobs: map<JobId, Job>
    var deliveries: map<DeliveryId, Delivery>
    var nextId: nat

    function Doc(): Document
      reads this
    {
      Document(jobs, deliveries)
    }

    ghost predicate Valid()
      reads this
    {
      DocumentOk(historyLimit, Doc()) && IdsBelow(Doc(), nextId)
    }

    constructor (historyLimit: nat)
      ensures Valid() && Doc() == Document(map[], map[]) && this.historyLimit == historyLimit
    {
      this.historyLimit := historyLimit;
      jobs, deliveries, nextId := map[], map[], 0;
    }

    /** The finished jobs, sorted by creation time. */
    method Removable() returns (order: seq<JobId>)
      ensures ByAge(Doc(), order) && Elements(order) == FinishedIds(Doc())
      ensures forall i, k :: 0 <= i < k < |order| ==>
                order[i] in jobs && order[k] in jobs && jobs[order[i]].createdAt <= jobs[order[k]].createdAt
      ensures forall j :: j in order <==> j in jobs && jobs[j].status != Pending && jobs[j].status != Publishing
    {
      order := [];
      var rest := set j | j in jobs && IsFinished(jobs[j]);
      while rest != {}
        invariant rest <= FinishedIds(Doc()) && ByAge(Doc(), order)
        invariant Elements(order) == FinishedIds(Doc()) - rest
        invariant forall j, f :: j in order && f in rest ==> Older(Doc(), j, f)
        decreases rest
      {
        OldestExists(Doc(), rest);
        var j :| j in rest && forall f | f in rest :: f != j ==> Older(Doc(), j, f);
        assert Elements(order + [j]) == Elements(order) + {j};
        order := order + [j];
        rest := rest - {j};
      }
      forall j ensures j in order <==> j in jobs && jobs[j].status != Pending && jobs[j].status != Publishing {
        assert j in order <==> j in Elements(order);
      }
    }

    /** Delete one job and, one by one, its deliveries. */
    method DeleteJob(job: JobId)
      modifies this`jobs, this`deliveries
      ensures Doc() == Drop(old(Doc()), {job})
    {
      jobs := jobs - {job};
      var before := deliveries;
      var rest := deliveries.Keys;
      while rest != {}
        invariant rest <= before.Keys && jobs == old(jobs) - {job}
        invariant deliveries == map k | k in before && (k in rest || before[k].jobId != job) :: before[k]
        decreases rest
      {
        var k :| k in rest;
        if deliveries[k].jobId == job {
          deliveries := deliveries - {k};
        }
        rest := rest - {k};
      }
      assert jobs == Drop(old(Doc()), {job}).jobs;
      assert deliveries == Drop(old(Doc()), {job}).deliveries;
    }

    /** Keep the history bounded: the oldest finished jobs go first, with their deliveries. */
    method PruneHistory() returns (gone: set<JobId>)
      modifies this`jobs, this`deliveries
      ensures IsPrune(historyLimit, old(Doc()), gone) && Doc() == Drop(old(Doc()), gone)
    {
      gone := {};
      if |jobs| <= historyLimit {
        assert Doc() == Drop(Doc(), {}) by {
          assert jobs == Drop(Doc(), {}).jobs && deliveries == Drop(Doc(), {}).deliveries;
        }
        return;
      }
      ghost var was := Doc();
      var order := Removable();
      PrefixSize(was, order);
      var excess := |jobs| - historyLimit;
      var count := if excess <= |order| then excess else |order|;
      assert Drop(was, {}) == was by {
        assert was.jobs == Drop(was, {}).jobs && was.deliveries == Drop(was, {}).deliveries;
      }
      for i := 0 to count
        invariant gone == Elements(order[..i]) && Doc() == Drop(was, gone)
      {
        ghost var before := gone;
        DeleteJob(order[i]);
        gone := gone + {order[i]};
        assert order[..i + 1] == order[..i] + [order[i]];
        assert Drop(Drop(was, before), {order[i]}) == Drop(was, gone) by {
          DropTwice(was, before, {order[i]});
        }
      }
      PrefixIsPrune(historyLimit, was, order, count);
    }

    // --- transaction bodies ----------------------------------------------------------------------------------

    /** Create the job of a logical identity only once. */
    method CreateIfAbsent(key: Key, now: int) returns (job: JobId, isNew: bool, ghost gone: set<JobId>)
      requires Valid()
      modifies this
      ensures Valid()
      ensures isNew <==> forall j :: j in old(jobs) ==> old(jobs)[j].key != key
      ensures isNew ==> job in jobs && jobs[job] == Job(key, now, Pending, None, None, 0)
      ensures !isNew ==> Doc() == old(Doc()) && job in jobs && jobs[job].key == key
      ensures isNew ==> var doc := SetJob(old(Doc()), job, NewJob(key, now));
                        job !in old(jobs) && job in jobs && IsPrune(historyLimit, doc, gone) && Doc() == Drop(doc, gone)
    {
      gone := {};
      if j :| j in jobs && jobs[j].key == key {
        job, isNew := j, false;
        return;
      }
      job, isNew := nextId, true;
      SetJobFrame(Doc(), job, NewJob(key, now));
      jobs := jobs[job := NewJob(key, now)];
      ghost var doc := Doc();
      assert doc == SetJob(old(Doc()), job, NewJob(key, now));
      nextId := nextId + 1;
      gone := PruneHistory();
      PruneKeepsDocument(historyLimit, doc, gone);
      assert job in UnfinishedIds(doc);
    }

    /** PENDING, FAILED and SKIPPED jobs may be claimed; a PUBLISHING or PUBLISHED one may not. */
    method Claim(job: JobId, now: int) returns (r: ClaimResult, ghost gone: set<JobId>)
      requires Valid()
      modifies this`jobs, this`deliveries
      ensures Valid()
      ensures r.NotFound? <==> job !in old(jobs)
      ensures r.Taken? <==> job in old(jobs) && (old(jobs)[job].status == Published || old(jobs)[job].status == Publishing)
      ensures !r.Claimed? ==> Doc() == old(Doc())
      ensures r.Claimed? ==>
                var doc := SetJob(old(Doc()), job, ClaimedJob(old(jobs)[job], now));
                && IsPrune(historyLimit, doc, gone) && Doc() == Drop(doc, gone)
                && job in jobs && jobs[job] == r.job
                && var was := old(jobs)[job];
                   r.job == Job(was.key, was.createdAt, Publishing, if was.startedAt.Some? then was.startedAt else Some(now),
                                was.completedAt, was.attemptCount + 1)
    {
      gone := {};
      if job !in jobs {
        return NotFound, gone;
      }
      if jobs[job].status == Published || jobs[job].status == Publishing {
        return Taken, gone;
      }
      var claimed := ClaimedJob(jobs[job], now);
      SetJobFrame(Doc(), job, claimed);
      jobs := jobs[job := claimed];
      ghost var doc := Doc();
      assert doc == SetJob(old(Doc()), job, claimed);
      gone := PruneHistory();
      PruneKeepsDocument(historyLimit, doc, gone);
      PrunedIds(doc, gone, nextId);
      r := Claimed(claimed);
    }

    /** Finish a job; `false` stands for the error of a job that has disappeared. */
    method FinishJob(job: JobId, status: JobStatus, now: int) returns (ok: bool, ghost gone: set<JobId>)
      requires Valid() && status != Pending && status != Publishing
      modifies this`jobs, this`deliveries
      ensures Valid()
      ensures ok == (job in old(jobs))
      ensures !ok ==> Doc() == old(Doc())
      ensures ok ==> var doc := SetJob(old(Doc()), job, FinishedJob(old(jobs)[job], status, now));
                     IsPrune(historyLimit, doc, gone) && Doc() == Drop(doc, gone)
      ensures job in jobs ==>
                var was := old(jobs)[job];
                jobs[job] == Job(was.key, was.createdAt, status, was.startedAt, Some(now), was.attemptCount)
      ensures forall j :: j in jobs && j != job ==> j in old(jobs) && jobs[j] == old(jobs)[j]
    {
      gone := {};
      if job !in jobs {
        return false, gone;
      }
      var finished := FinishedJob(jobs[job], status, now);
      SetJobFrame(Doc(), job, finished);
      jobs := jobs[job := finished];
      ghost var doc := Doc();
      assert doc == SetJob(old(Doc()), job, finished);
      gone := PruneHistory();
      PruneKeepsDocument(historyLimit, doc, gone);
      PrunedIds(doc, gone, nextId);
      ok := true;
    }

    /** Storing a delivery changes no job, so a bounded history prunes nothing. */
    method SaveDelivery(id: DeliveryId, record: Delivery)
      requires Valid() && Fits(Doc(), id, record) && id < nextId
      modifies this`jobs, this`deliveries
      ensures Valid() && Doc() == SetDelivery(old(Doc()), id, record)
    {
      SetDeliveryFrame(Doc(), id, record);
      deliveries := deliveries[id := record];
      ghost var doc := Doc();
      assert doc == SetDelivery(old(Doc()), id, record);
      var gone := PruneHistory();
      NothingToPrune(historyLimit, old(Doc()), doc, gone);
    }
  }

  /** A document with the jobs of a bounded one is not pruned. */
  lemma NothingToPrune(limit: nat, bounded: Document, doc: Document, gone: set<JobId>)
    requires Bounded(limit, bounded) && doc.jobs == bounded.jobs && IsPrune(limit, doc, gone)
    ensures gone == {} && Drop(doc, gone) == doc && Bounded(limit, doc)
  {
    Partition(doc);
    assert FinishedIds(doc) == FinishedIds(bounded) && UnfinishedIds(doc) == UnfinishedIds(bounded);
    assert Drop(doc, {}).jobs == doc.jobs && Drop(doc, {}).deliveries == doc.deliveries;
  }

  lemma PrunedIds(doc: Document, gone: set<JobId>, nextId: nat)
    requires IdsBelow(doc, nextId)
    ensures IdsBelow(Drop(doc, gone), nextId)
    ensures forall j :: j in Drop(doc, gone).jobs ==> j in doc.jobs && Drop(doc, gone).jobs[j] == doc.jobs[j]
  {
  }

  lemma DropTwice(doc: Document, a: set<JobId>, b: set<JobId>)
    ensures Drop(Drop(doc, a), b) == Drop(doc, a + b)
  {
    assert Drop(Drop(doc, a), b).jobs == Drop(doc, a + b).jobs;
    assert Drop(Drop(doc, a), b).deliveries == Drop(doc, a + b).deliveries;
  }

  // --- recovery on whole documents -----------------------------------------------------------------------------

  /** One job of `now`, when recovery started from `was`: still waiting, untouched, or resolved. */
  ghost predicate JobRecovered(was: Document, now: Document, waiting: bool, j: JobId)
    requires j in now.jobs
  {
    && j in was.jobs && SameDeliveries(was, now, j)
    && (waiting || IsFinished(was.jobs[j]) ==> now.jobs[j] == was.jobs[j])
    && (!waiting ==> IsFinished(now.jobs[j]))
    && (!waiting && !IsFinished(was.jobs[j]) ==> ResolvedAs(was, j, now.jobs[j].status))
  }

  ghost predicate SomeDelivery(doc: Document, j: JobId, status: DeliveryStatus) {
    exists k :: k in doc.deliveries && doc.deliveries[k].jobId == j && doc.deliveries[k].status == status
  }

  /** How recovery closes a job on the evidence of its deliveries. */
  ghost predicate ResolvedAs(was: Document, j: JobId, status: JobStatus)
    requires j in was.jobs
  {
    if was.jobs[j].status == Pending then status == Skipped
    else
      && (status == Published <==> SomeDelivery(was, j, Sent))
      && (status == Failed <==> !SomeDelivery(was, j, Sent) && SomeDelivery(was, j, Unknown))
      && (status == Skipped <==> !SomeDelivery(was, j, Sent) && !SomeDelivery(was, j, Unknown))
  }

  /** `now` is `was` after recovery has finished some unfinished jobs and still has `todo` before it. */
  ghost predicate RecoveredFrom(was: Document, now: Document, todo: set<JobId>) {
    && todo <= UnfinishedIds(was) && todo <= now.jobs.Keys
    && (forall j :: j in now.jobs ==> JobRecovered(was, now, j in todo, j))
  }

  lemma RecoveryStep(limit: nat, was: Document, now: Document, todo: set<JobId>, j: JobId, at: int, gone: set<JobId>)
    requires RecoveredFrom(was, now, todo) && j in todo
    requires IsPrune(limit, SetJob(now, j, FinishedJob(now.jobs[j], RecoveredStatus(was, j), at)), gone)
    ensures RecoveredFrom(was, Drop(SetJob(now, j, FinishedJob(now.jobs[j], RecoveredStatus(was, j), at)), gone), todo - {j})
  {
    var doc := SetJob(now, j, FinishedJob(now.jobs[j], RecoveredStatus(was, j), at));
    var t := Drop(doc, gone);
    forall i | i in t.jobs ensures JobRecovered(was, t, i in todo - {j}, i) {
      assert JobRecovered(was, now, i in todo, i);
    }
  }

  /** What recovery leaves of a document when `todo` is still before it. */
  function Surviving(limit: nat, was: Document, todo: set<JobId>): set<JobId> {
    set j | j in was.jobs && (j in todo || !RecoveryDrops(limit, was, j))
  }

  /** Recovery has resolved the first jobs, and dropped of them exactly those that the history limit drops. */
  ghost predicate InOrder(limit: nat, was: Document, now: Document, todo: set<JobId>)
    requires todo <= UnfinishedIds(was)
  {
    && (forall i, k :: i in UnfinishedIds(was) - todo && k in todo ==> RecoversBefore(was, i, k))
    && now.jobs.Keys == Surviving(limit, was, todo)
  }

  lemma StillToDo(was: Document, now: Document, todo: set<JobId>)
    requires RecoveredFrom(was, now, todo)
    ensures UnfinishedIds(now) == todo && forall j :: j in todo ==> now.jobs[j] == was.jobs[j]
  {
    forall j | j in now.jobs ensures IsFinished(now.jobs[j]) <==> j !in todo {
      assert JobRecovered(was, now, j in todo, j);
    }
  }

  /** The next job comes after what is resolved and before what is not. */
  lemma NextInOrder(limit: nat, was: Document, now: Document, todo: set<JobId>, j: JobId)
    requires RecoveredFrom(was, now, todo) && InOrder(limit, was, now, todo) && j in todo && Before(now, j) == {}
    ensures Before(was, j) == UnfinishedIds(was) - todo
    ensures forall k :: k in todo && k != j ==> RecoversBefore(was, j, k)
  {
    StillToDo(was, now, todo);
    forall k | k in todo && k != j ensures RecoversBefore(was, j, k) && !RecoversBefore(was, k, j) {
      assert k !in Before(now, j);
    }
    forall i | i in UnfinishedIds(was) - todo ensures i in Before(was, j) {
      assert RecoversBefore(was, i, j);
    }
  }

  /** Memory is above the limit exactly when the next job is one of those that go. */
  lemma DropsExactly(limit: nat, was: Document, now: Document, todo: set<JobId>, j: JobId)
    requires RecoveredFrom(was, now, todo) && InOrder(limit, was, now, todo) && j in todo && Before(now, j) == {}
    requires Bounded(limit, now)
    ensures |now.jobs| > limit <==> RecoveryDrops(limit, was, j)
  {
    var done := UnfinishedIds(was) - todo;
    StillToDo(was, now, todo);
    NextInOrder(limit, was, now, todo, j);
    var lost := was.jobs.Keys - now.jobs.Keys;
    assert |was.jobs.Keys| == |now.jobs.Keys| + |lost| by {
      assert was.jobs.Keys == now.jobs.Keys + lost;
    }
    assert lost <= done;
    SubsetSize(lost, done);
    if |now.jobs| > limit {
      AllUnfinished(now, limit);
      assert lost == done;
    }
  }

  /** Finishing a job drops it exactly when the document is above the limit, and nothing else. */
  lemma KeysLeft(limit: nat, now: Document, j: JobId, job: Job, gone: set<JobId>)
    requires Bounded(limit, now) && j in UnfinishedIds(now) && IsFinished(job) && IsPrune(limit, SetJob(now, j, job), gone)
    ensures Drop(SetJob(now, j, job), gone).jobs.Keys == now.jobs.Keys - if |now.jobs| > limit then {j} else {}
  {
    var doc := SetJob(now, j, job);
    assert doc.jobs.Keys == now.jobs.Keys && |doc.jobs.Keys| == |doc.jobs| && |now.jobs.Keys| == |now.jobs|;
    if |now.jobs| > limit {
      AllUnfinished(now, limit);
      OnlyOneToPrune(limit, doc, j, gone);
    }
  }

  lemma OrderStep(limit: nat, was: Document, now: Document, todo: set<JobId>, j: JobId, job: Job, gone: set<JobId>)
    requires RecoveredFrom(was, now, todo) && InOrder(limit, was, now, todo) && j in todo && Before(now, j) == {}
    requires Bounded(limit, now) && IsFinished(job) && IsPrune(limit, SetJob(now, j, job), gone)
    ensures InOrder(limit, was, Drop(SetJob(now, j, job), gone), todo - {j})
  {
    StillToDo(was, now, todo);
    KeysLeft(limit, now, j, job, gone);
    DropsExactly(limit, was, now, todo, j);
    NextInOrder(limit, was, now, todo, j);
    assert Surviving(limit, was, todo - {j}) == Surviving(limit, was, todo) - if RecoveryDrops(limit, was, j) then {j} else {};
  }

  function WithStatus(doc: Document, status: JobStatus): set<JobId> {
    set j | j in doc.jobs && doc.jobs[j].status == status
  }

  /** What is left to resolve: `rest`, which has this status, and, while that is PUBLISHING, jobs that never started. */
  ghost predicate FirstOf(was: Document, left: set<JobId>, rest: set<JobId>, status: JobStatus)
    requires left <= was.jobs.Keys
  {
    && (status == Publishing || status == Pending)
    && rest <= left && forall i :: i in left ==> if i in rest then was.jobs[i].status == status
                                                 else status == Publishing && was.jobs[i].status == Pending
  }

  lemma AtFirst(was: Document, now: Document, left: set<JobId>, status: JobStatus)
    requires RecoveredFrom(was, now, left)
    requires status == Publishing || (status == Pending && WithStatus(now, Publishing) == {})
    ensures FirstOf(was, left, WithStatus(now, status), status)
  {
    StillToDo(was, now, left);
    forall i | i in left ensures now.jobs[i].status == status || (status == Publishing && now.jobs[i].status == Pending) {
      assert i !in WithStatus(now, Publishing) ==> now.jobs[i].status == Pending;
    }
  }

  lemma FirstIsNext(was: Document, now: Document, left: set<JobId>, rest: set<JobId>, status: JobStatus, j: JobId)
    requires RecoveredFrom(was, now, left) && FirstOf(was, left, rest, status)
    requires OldestOf(now, rest, j)
    ensures Before(now, j) == {} && FirstOf(was, left - {j}, rest - {j}, status)
  {
    StillToDo(was, now, left);
    forall i | i in UnfinishedIds(now) && i != j ensures !RecoversBefore(now, i, j) {
      assert i in rest ==> Older(now, j, i);
    }
  }

  lemma SameEvidence(was: Document, now: Document, j: JobId, status: DeliveryStatus)
    requires SameDeliveries(was, now, j)
    ensures AnyDelivery(was, j, status) == AnyDelivery(now, j, status)
  {
  }

  /** A record after a call: confirmed, refused and how, or unknown. */
  ghost predicate RecordsAnswer(record: Delivery, a: Answer) {
    match a
    case Accepted => record.status == Sent && record.failure == None
    case Refused(kind) => record.status == Refusal && record.failure == Some(kind)
    case NoAnswer => record.status == Unknown && record.failure == Some(Ambiguous)
  }

  /** How many calls the attempt loop makes: up to the first answer that is not a retryable refusal. */
  ghost predicate StopsAfter(answer: nat -> Answer, calls: nat, max: nat) {
    && 1 <= calls <= max
    && (forall i :: 1 <= i < calls ==> answer(i) == Answer.Refused(Retryable))
    && (calls < max ==> answer(calls) != Answer.Refused(Retryable))
  }

  ghost predicate RefusedUpTo(answer: nat -> Answer, calls: nat) {
    forall i :: 1 <= i <= calls ==> answer(i) == Answer.Refused(Retryable)
  }

  lemma RefusedNext(answer: nat -> Answer, calls: nat, max: nat)
    requires RefusedUpTo(answer, calls) && calls < max
    ensures answer(calls + 1) == Answer.Refused(Retryable) ==> RefusedUpTo(answer, calls + 1)
    ensures answer(calls + 1) != Answer.Refused(Retryable) || calls + 1 == max ==> StopsAfter(answer, calls + 1, max)
  {
  }

  class Engine {
    const store: PublicationStore
    const maxAttempts: nat
    const retryDelay: nat

    constructor (store: PublicationStore, maxAttempts: nat, retryDelay: nat)
      requires maxAttempts >= 1
      ensures this.store == store && this.maxAttempts == maxAttempts && this.retryDelay == retryDelay
    {
      this.store, this.maxAttempts, this.retryDelay := store, maxAttempts, retryDelay;
    }

    /** The stored record of the destination, or a new one that is not stored yet. */
    method ReadRecord(job: JobId, destination: Destination) returns (id: DeliveryId, record: Delivery)
      requires store.Valid() && job in store.jobs
      modifies store`nextId
      ensures store.Valid() && store.Doc() == old(store.Doc()) && id < store.nextId
      ensures record.jobId == job && record.destination == destination && Fits(store.Doc(), id, record)
      ensures id in store.deliveries ==> record == store.deliveries[id]
      ensures id !in store.deliveries ==> record == Delivery(job, destination, Queued, 0, None)
      ensures Settled(store.Doc(), job, destination) <==> record.status == Sent || record.status == Unknown
    {
      if k :| k in RecordIds(store.Doc(), job, destination) {
        id, record := k, store.deliveries[k];
        FoundRecord(store.Doc(), k, record);
      } else {
        id, record := store.nextId, NewDelivery(job, destination);
        store.nextId := store.nextId + 1;
        NoRecord(store.Doc(), job, destination);
      }
    }

    /**
     * The attempt loop: call until an answer is not a retryable refusal or the attempts are used up, storing
     * every answer and waiting `retryDelay`, twice that, four times that ... between the calls.
     */
    method Attempts(id: DeliveryId, first: Delivery, answer: nat -> Answer)
      returns (record: Delivery, calls: nat, slept: nat)
      requires store.Valid() && maxAttempts >= 1 && id < store.nextId && Fits(store.Doc(), id, first)
      modifies store`jobs, store`deliveries
      ensures store.Valid() && store.Doc() == SetDelivery(old(store.Doc()), id, record)
      ensures StopsAfter(answer, calls, maxAttempts) && record == Tried(first, answer, calls)
      ensures slept == Backoff(retryDelay, calls - 1)
    {
      record, calls, slept := first, 0, 0;
      ghost var was := store.Doc();
      ghost var stored := first.(status := Sending);
      store.SaveDelivery(id, first.(status := Sending));
      while true
        invariant store.Valid() && store.Doc() == SetDelivery(was, id, stored) && SameTarget(first, stored)
        invariant Fits(was, id, first) && id < store.nextId
        invariant calls < maxAttempts && record == Tried(first, answer, calls)
        invariant RefusedUpTo(answer, calls) && slept == Backoff(retryDelay, calls)
        decreases maxAttempts - calls
      {
        RefusedNext(answer, calls, maxAttempts);
        record := AfterCall(record, answer(calls + 1));
        calls := calls + 1;
        StoreAgain(id, was, stored, record);
        stored := record;
        if !MayRetry(record) || calls == maxAttempts { return; }
        slept := slept + Pause(retryDelay, calls);
      }
    }

    /** A later record of the same target replaces the one just stored. */
    method StoreAgain(id: DeliveryId, ghost was: Document, ghost stored: Delivery, record: Delivery)
      requires store.Valid() && id < store.nextId && Fits(was, id, stored) && SameTarget(stored, record)
      requires store.Doc() == SetDelivery(was, id, stored)
      modifies store`jobs, store`deliveries
      ensures store.Valid() && store.Doc() == SetDelivery(was, id, record)
    {
      Rewrite(was, id, stored, record);
      store.SaveDelivery(id, record);
    }

    /** Deliver to one destination; a confirmed or ambiguous record is returned untouched, without a call. */
    method DeliverTo(job: JobId, destination: Destination, answer: nat -> Answer)
      returns (id: DeliveryId, record: Delivery, calls: nat, slept: nat)
      requires store.Valid() && maxAttempts >= 1 && job in store.jobs
      modifies store
      ensures store.Valid() && id in store.deliveries && store.deliveries[id] == record
      ensures record.jobId == job && record.destination == destination
      ensures Settled(old(store.Doc()), job, destination) ==> calls == 0 && slept == 0 && store.Doc() == old(store.Doc())
      ensures !Settled(old(store.Doc()), job, destination) ==>
                && StopsAfter(answer, calls, maxAttempts)
                && store.Doc() == SetDelivery(old(store.Doc()), id, record)
                && RecordsAnswer(record, answer(calls))
                && record.attemptCount == calls + Earlier(old(store.Doc()), id)
                && slept == retryDelay * (Pow2(calls - 1) - 1)
      ensures !Settled(old(store.Doc()), job, destination) ==>
                (Settled(store.Doc(), job, destination) <==> answer(calls) == Accepted || answer(calls) == NoAnswer)
    {
      calls, slept := 0, 0;
      id, record := ReadRecord(job, destination);
      if !Open(record.status) {
        return;
      }
      assert record.attemptCount == Earlier(store.Doc(), id);
      record, calls, slept := Attempts(id, record, answer);
      BackoffSum(retryDelay, calls - 1);
      FoundRecord(store.Doc(), id, record);
    }

    /** Finish the next unfinished job from its delivery records. */
    method RecoverOne(ghost was: Document, ghost todo: set<JobId>, j: JobId, now: int)
      requires store.Valid() && RecoveredFrom(was, store.Doc(), todo) && j in todo
      requires InOrder(store.historyLimit, was, store.Doc(), todo) && Before(store.Doc(), j) == {}
      modifies store`jobs, store`deliveries
      ensures store.Valid() && RecoveredFrom(was, store.Doc(), todo - {j})
      ensures InOrder(store.historyLimit, was, store.Doc(), todo - {j})
    {
      SameEvidence(was, store.Doc(), j, Sent);
      SameEvidence(was, store.Doc(), j, Unknown);
      ghost var doc := store.Doc();
      var status := RecoveredStatus(store.Doc(), j);
      var ok, gone := store.FinishJob(j, status, now);
      RecoveryStep(store.historyLimit, was, doc, todo, j, now, gone);
      OrderStep(store.historyLimit, was, doc, todo, j, FinishedJob(doc.jobs[j], status, now), gone);
    }

    /** Resolve, one transaction each and oldest first, the jobs of a status; `left` is what recovery has still before it. */
    method RecoverAll(ghost was: Document, ghost before: set<JobId>, status: JobStatus, now: int)
      returns (ghost left: set<JobId>)
      requires store.Valid() && RecoveredFrom(was, store.Doc(), before) && InOrder(store.historyLimit, was, store.Doc(), before)
      requires status == Publishing || (status == Pending && WithStatus(store.Doc(), Publishing) == {})
      modifies store`jobs, store`deliveries
      ensures store.Valid() && RecoveredFrom(was, store.Doc(), left) && InOrder(store.historyLimit, was, store.Doc(), left)
      ensures FirstOf(was, left, {}, status)
    {
      var rest := WithStatus(store.Doc(), status);
      left := before;
      AtFirst(was, store.Doc(), left, status);
      while rest != {}
        invariant store.Valid() && RecoveredFrom(was, store.Doc(), left)
        invariant InOrder(store.historyLimit, was, store.Doc(), left)
        invariant FirstOf(was, left, rest, status)
        decreases rest
      {
        StillToDo(was, store.Doc(), left);
        OldestExists(store.Doc(), rest);
        var j :| j in rest && forall f | f in rest :: f != j ==> Older(store.Doc(), j, f);
        FirstIsNext(was, store.Doc(), left, rest, status, j);
        RecoverOne(was, left, j, now);
        left, rest := left - {j}, rest - {j};
      }
    }

    /**
     * Restart recovery: interrupted jobs are resolved from their delivery records, jobs that never started
     * are skipped, and nothing else changes, except that of a document above the history limit the first jobs go.
     */
    method Recover(now: int)
      requires store.Valid()
      modifies store`jobs, store`deliveries
      ensures store.Valid()
      ensures RecoveredFrom(old(store.Doc()), store.Doc(), {})
      ensures store.jobs.Keys == Surviving(store.historyLimit, old(store.Doc()), {})
    {
      ghost var was := store.Doc();
      ghost var left := RecoverAll(was, UnfinishedIds(was), Publishing, now);
      StillToDo(was, store.Doc(), left);
      left := RecoverAll(was, left, Pending, now);
      assert left == {};
    }
  }

  /** The record after `calls` answers of the attempt loop. */
  function Tried(first: Delivery, answer: nat -> Answer, calls: nat): Delivery {
    if calls == 0 then first
    else first.(status := StatusOf(answer(calls)), failure := FailureOf(answer(calls)),
                attemptCount := first.attemptCount + calls)
  }

  function Earlier(doc: Document, id: DeliveryId): nat {
    if id in doc.deliveries then doc.deliveries[id].attemptCount else 0
  }

  /** The pause after the `n`-th attempt doubles each time. */
  function Pause(delay: nat, n: nat): nat
    requires n >= 1
  {
    delay * Pow2(n - 1)
  }

  function Backoff(delay: nat, n: nat): nat {
    if n == 0 then 0 else Backoff(delay, n - 1) + Pause(delay, n)
  }

  lemma {:induction false} BackoffSum(delay: nat, n: nat)
    ensures Backoff(delay, n) == delay * (Pow2(n) - 1)
  {
    if n > 0 {
      BackoffSum(delay, n - 1);
    }
  }

  /** Records of one target overwrite each other under the same id. */
  lemma Rewrite(doc: Document, id: DeliveryId, a: Delivery, b: Delivery)
    requires Fits(doc, id, a) && SameTarget(a, b)
    ensures Fits(SetDelivery(doc, id, a), id, b)
    ensures SetDelivery(SetDelivery(doc, id, a), id, b) == SetDelivery(doc, id, b)
  {
    assert id in RecordIds(SetDelivery(doc, id, a), a.jobId, a.destination);
  }

  lemma FoundRecord(doc: Document, k: DeliveryId, record: Delivery)
    requires DeliveriesOk(doc) && k in doc.deliveries && doc.deliveries[k] == record
    ensures Settled(doc, record.jobId, record.destination) <==> !Open(record.status)
  {
    forall x | x in doc.deliveries && doc.deliveries[x].jobId == record.jobId &&
               doc.deliveries[x].destination == record.destination
      ensures x == k
    {
      assert SameTarget(doc.deliveries[x], doc.deliveries[k]);
    }
  }

  lemma NoRecord(doc: Document, j: JobId, d: Destination)
    requires RecordIds(doc, j, d) == {} && j in doc.jobs
    ensures !Settled(doc, j, d)
  {
    forall k | k in doc.deliveries ensures !(doc.deliveries[k].jobId == j && doc.deliveries[k].destination == d) {
      assert k !in RecordIds(doc, j, d);
    }
  }
}
