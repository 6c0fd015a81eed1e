/** When a message can reach a destination twice: exactly the answers a restart loses. */
module PublicationResend {
  import opened Common
  import opened PublicationModel
  import opened PublicationMachine
  import opened PublicationSafety
  import opened PublicationTheorems

  // --- at most one accepted send, as long as no restart loses an accepted answer ---------------------------

  function AcceptedFor(log: seq<Call>, j: JobId, d: Destination): nat {
    if log == [] then 0
    else
      var last := log[|log| - 1];
      AcceptedFor(log[..|log| - 1], j, d) +
      if last.job == j && last.destination == d && last.answer == Accepted then 1 else 0
  }

  lemma AcceptedAppend(log: seq<Call>, call: Call, j: JobId, d: Destination)
    ensures AcceptedFor(log + [call], j, d) ==
            AcceptedFor(log, j, d) +
            if call.job == j && call.destination == d && call.answer == Accepted then 1 else 0
  {
    assert (log + [call])[..|log|] == log;
  }

  /** What must never be followed by another call: an acceptance, or also a call without an answer. */
  datatype Matter = Acceptance | Decision

  predicate Matters(m: Matter, a: Answer) {
    a == Accepted || (m == Decision && a == NoAnswer)
  }

  /** The record of such an answer. */
  predicate Lasts(m: Matter, status: DeliveryStatus) {
    status == Sent || (m == Decision && status == Unknown)
  }

  /** The document has that record for the target, or no longer has the job. */
  ghost predicate Recorded(m: Matter, doc: Document, j: JobId, d: Destination) {
    Keeps(doc, j, d, Sent) || (m == Decision && Keeps(doc, j, d, Unknown))
  }

  predicate CalledAt(log: seq<Call>, i: int, j: JobId, d: Destination) {
    0 <= i < |log| && log[i].job == j && log[i].destination == d
  }

  predicate AnsweredAt(m: Matter, log: seq<Call>, i: int, j: JobId, d: Destination) {
    CalledAt(log, i, j, d) && Matters(m, log[i].answer)
  }

  ghost predicate SomeAnswer(m: Matter, log: seq<Call>, j: JobId, d: Destination) {
    exists i :: AnsweredAt(m, log, i, j, d)
  }

  /** No call of the target follows an answer that matters, whatever it would have been answered. */
  ghost predicate NoneFollows(m: Matter, log: seq<Call>, j: JobId, d: Destination) {
    forall i, k :: AnsweredAt(m, log, i, j, d) && CalledAt(log, k, j, d) ==> k <= i
  }

  lemma CallAdded(m: Matter, log: seq<Call>, call: Call, j: JobId, d: Destination)
    requires NoneFollows(m, log, j, d)
    requires call.job == j && call.destination == d ==> !SomeAnswer(m, log, j, d)
    ensures NoneFollows(m, log + [call], j, d)
    ensures SomeAnswer(m, log + [call], j, d) ==>
              SomeAnswer(m, log, j, d) || (call.job == j && call.destination == d && Matters(m, call.answer))
  {
    var after := log + [call];
    forall i | 0 <= i < |log|
      ensures CalledAt(after, i, j, d) <==> CalledAt(log, i, j, d)
      ensures AnsweredAt(m, after, i, j, d) <==> AnsweredAt(m, log, i, j, d)
    {
      assert after[i] == log[i];
    }
  }

  /** Such an answer has come, and the executor has not stored it yet. */
  ghost predicate AnswerHeld(m: Matter, s: State, j: JobId, d: Destination) {
    exists e :: HoldsAnswer(m, s, e, j, d)
  }

  predicate HoldsAnswer(m: Matter, s: State, e: ExecutorId, j: JobId, d: Destination) {
    HasLane(s, e, d) && s.executors[e].job == j && s.executors[e].lanes[d].Answered? &&
    Lasts(m, s.executors[e].lanes[d].record.status)
  }

  ghost predicate AnsweredOnce(m: Matter, s: State, j: JobId, d: Destination) {
    && NoneFollows(m, s.log, j, d)
    && (SomeAnswer(m, s.log, j, d) ==> j < s.nextId && (Recorded(m, s.mem, j, d) || AnswerHeld(m, s, j, d)))
  }

  /** What a restart must find on disk so that no such answer is lost. */
  ghost predicate AnswerOnDisk(m: Matter, s: State, j: JobId, d: Destination) {
    SomeAnswer(m, s.log, j, d) ==> Recorded(m, s.disk, j, d)
  }

  /** Every restart of the run finds the answers that matter on disk. */
  ghost predicate NoAnswerLost(m: Matter, c: Config, s: State, actions: seq<Action>, j: JobId, d: Destination)
    requires Valid(c, s, actions)
    decreases |actions|
  {
    actions == [] ||
    ((actions[0].Crash? ==> AnswerOnDisk(m, s, j, d)) &&
     NoAnswerLost(m, c, Step(c, s, actions[0]), actions[1..], j, d))
  }

  /** A lane about to call is the only lane of its target, so nobody holds an answer for it. */
  lemma ReadyHoldsNothing(m: Matter, c: Config, s: State, e: ExecutorId, d: Destination)
    requires Inv(c, s) && HasLane(s, e, d) && s.executors[e].lanes[d].Ready?
    ensures !AnswerHeld(m, s, s.executors[e].job, d)
  {
    forall f ensures !HoldsAnswer(m, s, f, s.executors[e].job, d) {
      if f in s.executors && s.executors[f].job == s.executors[e].job {
        assert f == e;
      }
    }
  }

  /** A call to the target itself: no answer that matters came before. */
  lemma OwnCallAnsweredOnce(m: Matter, c: Config, s: State, e: ExecutorId, d: Destination, answer: Answer)
    requires Inv(c, s) && Enabled(c, s, Publish(e, d, answer)) && AnsweredOnce(m, s, s.executors[e].job, d)
    ensures AnsweredOnce(m, Step(c, s, Publish(e, d, answer)), s.executors[e].job, d)
  {
    var j := s.executors[e].job;
    CallsNeedOpenRecord(c, s, e, d, answer);
    ReadyHoldsNothing(m, c, s, e, d);
    assert !SomeAnswer(m, s.log, j, d);
    AnswerIsHeld(m, c, s, e, d, answer);
    CallAdded(m, s.log, Call(e, j, d, answer), j, d);
  }

  lemma AnswerIsHeld(m: Matter, c: Config, s: State, e: ExecutorId, d: Destination, answer: Answer)
    requires Inv(c, s) && Guard(s, Publish(e, d, answer))
    ensures var t := Step(c, s, Publish(e, d, answer));
            && t.mem == s.mem && t.nextId == s.nextId && s.executors[e].job < s.nextId
            && t.log == s.log + [Call(e, s.executors[e].job, d, answer)]
            && (Matters(m, answer) ==> AnswerHeld(m, t, s.executors[e].job, d))
  {
    assert ExecutorOk(c, s.mem, s.executors[e]);
    if Matters(m, answer) {
      assert HoldsAnswer(m, Step(c, s, Publish(e, d, answer)), e, s.executors[e].job, d);
    }
  }

  lemma OtherCallHolds(m: Matter, c: Config, s: State, e: ExecutorId, x: Destination, answer: Answer, j: JobId, d: Destination)
    requires Guard(s, Publish(e, x, answer)) && !(s.executors[e].job == j && x == d) && AnswerHeld(m, s, j, d)
    ensures AnswerHeld(m, Step(c, s, Publish(e, x, answer)), j, d)
  {
    var f :| HoldsAnswer(m, s, f, j, d);
    assert HoldsAnswer(m, Step(c, s, Publish(e, x, answer)), f, j, d);
  }

  lemma CallAnsweredOnce(m: Matter, c: Config, s: State, e: ExecutorId, x: Destination, answer: Answer, j: JobId, d: Destination)
    requires Inv(c, s) && Enabled(c, s, Publish(e, x, answer)) && AnsweredOnce(m, s, j, d)
    ensures AnsweredOnce(m, Step(c, s, Publish(e, x, answer)), j, d)
  {
    if s.executors[e].job == j && x == d {
      OwnCallAnsweredOnce(m, c, s, e, d, answer);
    } else {
      CallAdded(m, s.log, Call(e, s.executors[e].job, x, answer), j, d);
      if AnswerHeld(m, s, j, d) {
        OtherCallHolds(m, c, s, e, x, answer, j, d);
      }
    }
  }

  /** An answer that is being held is stored by its own lane, and lost by nothing but a restart. */
  lemma HeldAnswerStored(m: Matter, c: Config, s: State, e: ExecutorId, d: Destination, w: Write, j: JobId)
    requires Inv(c, s) && Enabled(c, s, Store(e, d, w)) && HoldsAnswer(m, s, e, j, d)
    ensures Recorded(m, Step(c, s, Store(e, d, w)).mem, j, d)
  {
    var lane := s.executors[e].lanes[d];
    var status := lane.record.status;
    assert ExecutorOk(c, s.mem, s.executors[e]) && LaneOk(c, s.mem, j, d, lane);
    var doc := SetDelivery(s.mem, lane.id, lane.record);
    assert HasRecord(doc, j, d, status) by {
      assert lane.id in doc.deliveries && doc.deliveries[lane.id] == lane.record;
    }
    DropKeeps(doc, w.gone, j, d, status);
  }

  lemma HeldAnswerStep(m: Matter, c: Config, s: State, a: Action, e: ExecutorId, j: JobId, d: Destination)
    requires Inv(c, s) && Enabled(c, s, a) && HoldsAnswer(m, s, e, j, d) && !a.Crash? && !a.Publish?
    ensures HoldsAnswer(m, Step(c, s, a), e, j, d) || Recorded(m, Step(c, s, a).mem, j, d)
  {
    var t := Step(c, s, a);
    if a.Store? && a.executor == e && a.destination == d {
      HeldAnswerStored(m, c, s, e, d, a.w, j);
    } else {
      assert e in t.executors && t.executors[e].job == j;
      assert HasLane(t, e, d);
      LaneChange(c, s, a, e, d);
    }
  }

  lemma RecordedStep(m: Matter, c: Config, s: State, a: Action, j: JobId, d: Destination)
    requires Inv(c, s) && Enabled(c, s, a) && j < s.nextId && Recorded(m, s.mem, j, d) && !a.Crash?
    ensures Recorded(m, Step(c, s, a).mem, j, d) && j < Step(c, s, a).nextId
  {
    KeepsStep(c, s, a, j, d, if Keeps(s.mem, j, d, Sent) then Sent else Unknown);
  }

  lemma AnsweredStep(m: Matter, c: Config, s: State, a: Action, j: JobId, d: Destination)
    requires Inv(c, s) && Enabled(c, s, a) && AnsweredOnce(m, s, j, d)
    requires a.Crash? ==> AnswerOnDisk(m, s, j, d)
    ensures AnsweredOnce(m, Step(c, s, a), j, d)
  {
    if a.Publish? {
      CallAnsweredOnce(m, c, s, a.executor, a.destination, a.answer, j, d);
    } else if SomeAnswer(m, s.log, j, d) && !a.Crash? {
      if Recorded(m, s.mem, j, d) {
        RecordedStep(m, c, s, a, j, d);
      } else {
        var e :| HoldsAnswer(m, s, e, j, d);
        HeldAnswerStep(m, c, s, a, e, j, d);
      }
    }
  }

  /** In a run whose restarts lose no answer that matters, no call of the target follows such an answer. */
  lemma {:induction false} NoCallFollows(m: Matter, c: Config, s: State, actions: seq<Action>, j: JobId, d: Destination)
    requires Inv(c, s) && Valid(c, s, actions) && AnsweredOnce(m, s, j, d)
    requires NoAnswerLost(m, c, s, actions, j, d)
    ensures NoneFollows(m, Run(c, s, actions).log, j, d)
    decreases |actions|
  {
    if actions != [] {
      StepKeeps(c, s, actions[0]);
      AnsweredStep(m, c, s, actions[0], j, d);
      NoCallFollows(m, c, Step(c, s, actions[0]), actions[1..], j, d);
    }
  }

  lemma {:induction false} AcceptedOnceIn(log: seq<Call>, j: JobId, d: Destination)
    requires NoneFollows(Acceptance, log, j, d)
    ensures AcceptedFor(log, j, d) <= 1
    ensures AcceptedFor(log, j, d) == 1 ==> SomeAnswer(Acceptance, log, j, d)
    decreases |log|
  {
    if log != [] {
      var n := |log| - 1;
      forall i | 0 <= i < n ensures log[..n][i] == log[i] {
      }
      assert forall i :: AnsweredAt(Acceptance, log[..n], i, j, d) ==> AnsweredAt(Acceptance, log, i, j, d);
      assert forall i :: CalledAt(log[..n], i, j, d) ==> CalledAt(log, i, j, d);
      AcceptedOnceIn(log[..n], j, d);
      if log[n].job == j && log[n].destination == d && log[n].answer == Accepted {
        assert AnsweredAt(Acceptance, log, n, j, d);
      }
    }
  }

  /**
   * Exactly-once towards each platform: in a run whose restarts lose no accepted answer, one job reaches
   * one destination at most once, however often it is executed, retried, re-executed or recovered.
   */
  lemma AtMostOneAccepted(c: Config, s: State, actions: seq<Action>, j: JobId, d: Destination)
    requires Inv(c, s) && Valid(c, s, actions) && AnsweredOnce(Acceptance, s, j, d)
    requires NoAnswerLost(Acceptance, c, s, actions, j, d)
    ensures AcceptedFor(Run(c, s, actions).log, j, d) <= 1
  {
    NoCallFollows(Acceptance, c, s, actions, j, d);
    AcceptedOnceIn(Run(c, s, actions).log, j, d);
  }

  /** The same from the start: at most one accepted send for every job and destination, and no call after it. */
  lemma AcceptedAtMostOnce(c: Config, actions: seq<Action>, j: JobId, d: Destination)
    requires c.maxAttempts >= 1 && Valid(c, Start(), actions) && NoAnswerLost(Acceptance, c, Start(), actions, j, d)
    ensures AcceptedFor(Run(c, Start(), actions).log, j, d) <= 1
    ensures NoneFollows(Acceptance, Run(c, Start(), actions).log, j, d)
  {
    AtMostOneAccepted(c, Start(), actions, j, d);
    NoCallFollows(Acceptance, c, Start(), actions, j, d);
  }

  /**
   * An ambiguous call is never repeated: from the start, in a run whose restarts find both kinds of answer on disk,
   * one call at most of a target is accepted or remains without an answer, and it is the last call of that target.
   */
  lemma DecidedAtMostOnce(c: Config, actions: seq<Action>, j: JobId, d: Destination, i: nat, k: nat)
    requires c.maxAttempts >= 1 && Valid(c, Start(), actions) && NoAnswerLost(Decision, c, Start(), actions, j, d)
    requires var log := Run(c, Start(), actions).log;
             && i < |log| && log[i].job == j && log[i].destination == d && (log[i].answer == Accepted || log[i].answer == NoAnswer)
             && k < |log| && log[k].job == j && log[k].destination == d
    ensures k <= i
    ensures Run(c, Start(), actions).log[k].answer == Accepted || Run(c, Start(), actions).log[k].answer == NoAnswer ==> k == i
  {
    NoCallFollows(Decision, c, Start(), actions, j, d);
    var log := Run(c, Start(), actions).log;
    assert AnsweredAt(Decision, log, i, j, d) && CalledAt(log, k, j, d) && CalledAt(log, i, j, d);
    if Matters(Decision, log[k].answer) { assert AnsweredAt(Decision, log, k, j, d); }
  }

  // --- exactly when a restart leads to another send -----------------------------------------------------------

  /** The job is there, the target is not settled, and recovery does not close the job on another destination's evidence. */
  ghost predicate Callable(c: Config, doc: Document, j: JobId, d: Destination) {
    && j in doc.jobs && d in c.destinations && !Settled(doc, j, d)
    && doc.jobs[j].status != Published
    && (doc.jobs[j].status == Publishing ==> !AnyDelivery(doc, j, Sent))
  }

  /**
   * After a restart a destination can be called again for a job exactly when the reloaded document has
   * the job, records neither SENT nor UNKNOWN for that destination, and recovery neither closes the job as
   * PUBLISHED on the evidence of another destination nor drops it because the history is too long.
   */
  ghost predicate CanResend(c: Config, doc: Document, j: JobId, d: Destination) {
    Callable(c, doc, j, d) && !RecoveryDrops(c.historyLimit, doc, j)
  }

  /** Nothing can make this process call the target any more. */
  ghost predicate Closed(c: Config, doc: Document, j: JobId, d: Destination) {
    j !in doc.jobs || d !in c.destinations || Settled(doc, j, d) || doc.jobs[j].status == Published
  }

  ghost predicate Barred(c: Config, s: State, j: JobId, d: Destination) {
    && j < s.nextId
    && !CanResend(c, s.disk, j, d)
    && (if s.recovering then !CanResend(c, s.mem, j, d) else Closed(c, s.mem, j, d))
  }

  /** Recovery closes as PUBLISHED every interrupted job with a confirmed destination. */
  lemma RecoverBars(c: Config, s: State, a: Action, j: JobId, d: Destination)
    requires Inv(c, s) && Enabled(c, s, a) && a.RecoverJob? && !Callable(c, s.mem, j, d)
    ensures !Callable(c, Written(s, a), j, d)
  {
    var doc := Written(s, a);
    if Settled(s.mem, j, d) {
      if Keeps(s.mem, j, d, Sent) {
        KeepsFrame(s.mem, doc, j, d, Sent);
      } else {
        KeepsFrame(s.mem, doc, j, d, Unknown);
      }
    } else if j in doc.jobs && a.job != j {
      assert doc.jobs[j] == s.mem.jobs[j] && doc.deliveries == s.mem.deliveries;
    }
  }

  lemma DropBars(c: Config, doc: Document, gone: set<JobId>, j: JobId, d: Destination)
    ensures !Callable(c, doc, j, d) ==> !Callable(c, Drop(doc, gone), j, d)
    ensures Closed(c, doc, j, d) ==> Closed(c, Drop(doc, gone), j, d)
  {
    var t := Drop(doc, gone);
    if j in t.jobs {
      if Keeps(doc, j, d, Sent) {
        DropKeeps(doc, gone, j, d, Sent);
      }
      if Keeps(doc, j, d, Unknown) {
        DropKeeps(doc, gone, j, d, Unknown);
      }
      if AnyDelivery(doc, j, Sent) {
        var k :| k in doc.deliveries && doc.deliveries[k].jobId == j && doc.deliveries[k].status == Sent;
        assert k in t.deliveries && t.deliveries[k] == doc.deliveries[k];
      }
    }
  }

  /** In normal operation a closed target stays closed: PUBLISHED jobs are never claimed again. */
  lemma WriteCloses(c: Config, s: State, a: Action, j: JobId, d: Destination)
    requires Inv(c, s) && Enabled(c, s, a) && Writes(a) && !s.recovering && j < s.nextId
    requires Closed(c, s.mem, j, d)
    ensures Closed(c, Written(s, a), j, d)
  {
    if Keeps(s.mem, j, d, Sent) {
      WrittenKeeps(c, s, a, j, d, Sent);
    } else if Keeps(s.mem, j, d, Unknown) {
      WrittenKeeps(c, s, a, j, d, Unknown);
    }
  }

  lemma ClosedIsBarred(c: Config, doc: Document, j: JobId, d: Destination)
    requires Closed(c, doc, j, d)
    ensures !CanResend(c, doc, j, d)
  {
  }

  /** Above the history limit all jobs are unfinished, so the one that recovery resolves is dropped at once. */
  lemma ResolvedAboveLimitGoes(c: Config, s: State, i: JobId, at: int, w: Write)
    requires Inv(c, s) && |s.mem.jobs| > c.historyLimit && Guard(s, RecoverJob(i, at, w))
    ensures Enabled(c, s, RecoverJob(i, at, w)) <==> w.gone == {i}
    ensures Enabled(c, s, RecoverJob(i, at, w)) ==> i !in Step(c, s, RecoverJob(i, at, w)).mem.jobs
  {
    var doc := Written(s, RecoverJob(i, at, w));
    AllUnfinished(s.mem, c.historyLimit);
    assert doc.jobs.Keys == s.mem.jobs.Keys;
    assert |doc.jobs| == |doc.jobs.Keys| && |s.mem.jobs| == |s.mem.jobs.Keys|;
    OnlyOneToPrune(c.historyLimit, doc, i, w.gone);
  }

  /** A job that is to be dropped is, or one of those before it. */
  lemma DropsNext(c: Config, s: State, a: Action, j: JobId)
    requires Inv(c, s) && Enabled(c, s, a) && a.RecoverJob? && RecoveryDrops(c.historyLimit, s.mem, j)
    ensures var t := Step(c, s, a);
            j !in t.mem.jobs || RecoveryDrops(c.historyLimit, t.mem, j)
  {
    ResolvedAboveLimitGoes(c, s, a.job, a.at, a.w);
    if a.job != j { OneLess(c, s, a, j); }
  }

  /** Above the limit the next job goes, and every other one moves up. */
  lemma OneLess(c: Config, s: State, a: Action, j: JobId)
    requires Inv(c, s) && Enabled(c, s, a) && a.RecoverJob? && |s.mem.jobs| > c.historyLimit && j in s.mem.jobs && j != a.job
    ensures var t := Step(c, s, a);
            && t.mem == Drop(s.mem, {a.job}) && j in t.mem.jobs
            && |t.mem.jobs| == |s.mem.jobs| - 1 && |Before(t.mem, j)| == |Before(s.mem, j)| - 1
            && j in UnfinishedIds(s.mem) && j in UnfinishedIds(t.mem)
  {
    ResolvedAboveLimitGoes(c, s, a.job, a.at, a.w);
    AllUnfinished(s.mem, c.historyLimit);
    DropsWhatItSets(s.mem, a.job, FinishedJob(s.mem.jobs[a.job], RecoveredStatus(s.mem, a.job), a.at));
    FirstGone(s.mem, Drop(s.mem, {a.job}), a.job, j);
  }

  lemma DropsWhatItSets(doc: Document, i: JobId, job: Job)
    ensures Drop(SetJob(doc, i, job), {i}) == Drop(doc, {i}) && Drop(doc, {i}).jobs == doc.jobs - {i}
  {
    assert Drop(SetJob(doc, i, job), {i}).jobs == Drop(doc, {i}).jobs;
    assert Drop(SetJob(doc, i, job), {i}).deliveries == Drop(doc, {i}).deliveries;
  }

  lemma BarredStep(c: Config, s: State, a: Action, j: JobId, d: Destination)
    requires Inv(c, s) && Enabled(c, s, a) && Barred(c, s, j, d)
    ensures Barred(c, Step(c, s, a), j, d)
    ensures CallsFor(Step(c, s, a).log, j, d) == CallsFor(s.log, j, d)
  {
    if Writes(a) {
      if s.recovering {
        assert a.RecoverJob?;
        if Callable(c, s.mem, j, d) {
          DropsNext(c, s, a, j);
        } else {
          RecoverBars(c, s, a, j, d);
        }
      } else {
        WriteCloses(c, s, a, j, d);
        ClosedIsBarred(c, Written(s, a), j, d);
      }
      DropBars(c, Written(s, a), a.w.gone, j, d);
      assert Step(c, s, a).mem == Drop(Written(s, a), a.w.gone);
    } else if a.Publish? {
      CallsNeedOpenRecord(c, s, a.executor, a.destination, a.answer);
      var call := Call(a.executor, s.executors[a.executor].job, a.destination, a.answer);
      CallsForAppend(s.log, call, j, d);
      assert !(call.job == j && call.destination == d);
    } else if a.Resume? && j in s.mem.jobs {
      assert j !in UnfinishedIds(s.mem);
    } else if a.OtherWrite? && !s.recovering {
      ClosedIsBarred(c, s.mem, j, d);
    }
  }

  lemma {:induction false} BarredForever(c: Config, s: State, actions: seq<Action>, j: JobId, d: Destination)
    requires Inv(c, s) && Valid(c, s, actions) && Barred(c, s, j, d)
    ensures CallsFor(Run(c, s, actions).log, j, d) == CallsFor(s.log, j, d)
    decreases |actions|
  {
    if actions != [] {
      StepKeeps(c, s, actions[0]);
      BarredStep(c, s, actions[0], j, d);
      BarredForever(c, Step(c, s, actions[0]), actions[1..], j, d);
    }
  }

  // --- and conversely: an explicit run that sends again ---------------------------------------------------------

  /** A write that prunes nothing. */
  function Plain(durable: bool): Write {
    Write({}, durable)
  }

  lemma Prepend(c: Config, s: State, a: Action, rest: seq<Action>)
    requires Enabled(c, s, a) && Valid(c, Step(c, s, a), rest)
    ensures Valid(c, s, [a] + rest) && Run(c, s, [a] + rest) == Run(c, Step(c, s, a), rest)
  {
    assert ([a] + rest)[1..] == rest;
  }

  function One(answer: Answer): nat {
    if answer == Accepted then 1 else 0
  }

  /** The run makes one more call to the target, with this answer. */
  ghost predicate CallsOnce(c: Config, s: State, actions: seq<Action>, j: JobId, d: Destination, answer: Answer) {
    && Valid(c, s, actions)
    && CallsFor(Run(c, s, actions).log, j, d) == CallsFor(s.log, j, d) + 1
    && AcceptedFor(Run(c, s, actions).log, j, d) == AcceptedFor(s.log, j, d) + One(answer)
  }

  lemma PublishPath(c: Config, s: State, e: ExecutorId, d: Destination, answer: Answer) returns (actions: seq<Action>)
    requires HasLane(s, e, d) && s.executors[e].lanes[d].Ready?
    ensures CallsOnce(c, s, actions, s.executors[e].job, d, answer)
  {
    var call := Publish(e, d, answer);
    var t := Step(c, s, call);
    CallsForAppend(s.log, Call(e, s.executors[e].job, d, answer), s.executors[e].job, d);
    AcceptedAppend(s.log, Call(e, s.executors[e].job, d, answer), s.executors[e].job, d);
    assert Valid(c, t, []) && Run(c, t, []) == t;
    Prepend(c, s, call, []);
    actions := [call] + [];
  }

  lemma BeginPath(c: Config, s: State, e: ExecutorId, d: Destination, answer: Answer) returns (actions: seq<Action>)
    requires |s.mem.jobs| <= c.historyLimit && HasLane(s, e, d) && s.executors[e].lanes[d].Fetched?
    ensures CallsOnce(c, s, actions, s.executors[e].job, d, answer)
  {
    var begin := Begin(e, d, Plain(false));
    QuietWrite(c.historyLimit, Written(s, begin));
    var rest := PublishPath(c, Step(c, s, begin), e, d, answer);
    Prepend(c, s, begin, rest);
    actions := [begin] + rest;
  }

  lemma OpenRecordIsFetched(c: Config, s: State, j: JobId, d: Destination)
    requires j in s.mem.jobs && !Settled(s.mem, j, d)
    ensures FetchLane(s, j, d).Fetched?
  {
    var ids := RecordIds(s.mem, j, d);
    if ids != {} {
      var k := AnyOf(ids);
      assert s.mem.deliveries[k].status != Sent && s.mem.deliveries[k].status != Unknown;
    }
  }

  /** From a claimed job: deliver, read the open record, store SENDING, call. */
  lemma CallPath(c: Config, s: State, e: ExecutorId, d: Destination, answer: Answer) returns (actions: seq<Action>)
    requires |s.mem.jobs| <= c.historyLimit && e in s.executors && s.executors[e].deciding
    requires s.executors[e].job in s.mem.jobs && d in c.destinations && !Settled(s.mem, s.executors[e].job, d)
    ensures CallsOnce(c, s, actions, s.executors[e].job, d, answer)
  {
    var s1 := Step(c, s, Deliver(e));
    OpenRecordIsFetched(c, s1, s.executors[e].job, d);
    var rest := BeginPath(c, Step(c, s1, Fetch(e, d)), e, d, answer);
    Prepend(c, s1, Fetch(e, d), rest);
    Prepend(c, s, Deliver(e), [Fetch(e, d)] + rest);
    actions := [Deliver(e)] + ([Fetch(e, d)] + rest);
  }

  /** Once recovery is complete the job is claimed again. */
  lemma ClaimPath(c: Config, s: State, j: JobId, d: Destination, answer: Answer) returns (actions: seq<Action>)
    requires Inv(c, s) && s.recovering && |s.mem.jobs| <= c.historyLimit && UnfinishedIds(s.mem) == {}
    requires CanResend(c, s.mem, j, d)
    ensures CallsOnce(c, s, actions, j, d, answer)
  {
    var s1 := Step(c, s, Resume);
    StepKeeps(c, s, Resume);
    assert j !in UnfinishedIds(s.mem);
    var claim := Claim(j, 0, Plain(false));
    var doc := SetJob(s1.mem, j, ClaimedJob(s1.mem.jobs[j], 0));
    assert doc.jobs.Keys == s1.mem.jobs.Keys;
    QuietWrite(c.historyLimit, doc);
    var s2 := Step(c, s1, claim);
    StepKeeps(c, s1, claim);
    assert s2.mem == doc && s2.log == s.log;
    assert !Settled(s2.mem, j, d) by {
      assert s2.mem.deliveries == s.mem.deliveries;
      if Keeps(s2.mem, j, d, Sent) {
        KeepsFrame(s2.mem, s.mem, j, d, Sent);
      } else if Keeps(s2.mem, j, d, Unknown) {
        KeepsFrame(s2.mem, s.mem, j, d, Unknown);
      }
    }
    var rest := CallPath(c, s2, s1.nextId, d, answer);
    Prepend(c, s1, claim, rest);
    Prepend(c, s, Resume, [claim] + rest);
    actions := [Resume] + ([claim] + rest);
  }

  /** Resolving a job without pruning writes its status and nothing else. */
  lemma RecoveredDocument(c: Config, s: State, i: JobId)
    requires Inv(c, s) && s.recovering && |s.mem.jobs| <= c.historyLimit && i in UnfinishedIds(s.mem)
    requires Before(s.mem, i) == {}
    ensures var a := RecoverJob(i, 0, Plain(false));
            var done := FinishedJob(s.mem.jobs[i], RecoveredStatus(s.mem, i), 0);
            Enabled(c, s, a) && Step(c, s, a) == s.(mem := SetJob(s.mem, i, done))
    ensures SetJob(s.mem, i, FinishedJob(s.mem.jobs[i], RecoveredStatus(s.mem, i), 0)).jobs.Keys == s.mem.jobs.Keys
  {
    var doc := SetJob(s.mem, i, FinishedJob(s.mem.jobs[i], RecoveredStatus(s.mem, i), 0));
    assert doc.jobs.Keys == s.mem.jobs.Keys;
    QuietWrite(c.historyLimit, doc);
  }

  lemma RecoverOne(c: Config, s: State, i: JobId, j: JobId, d: Destination)
    requires Inv(c, s) && s.recovering && |s.mem.jobs| <= c.historyLimit && i in UnfinishedIds(s.mem)
    requires Before(s.mem, i) == {} && CanResend(c, s.mem, j, d)
    ensures Enabled(c, s, RecoverJob(i, 0, Plain(false)))
    ensures var t := Step(c, s, RecoverJob(i, 0, Plain(false)));
            && t.log == s.log && t.recovering && |t.mem.jobs| == |s.mem.jobs|
            && UnfinishedIds(t.mem) == UnfinishedIds(s.mem) - {i} && CanResend(c, t.mem, j, d)
  {
    RecoveredDocument(c, s, i);
    var doc := SetJob(s.mem, i, FinishedJob(s.mem.jobs[i], RecoveredStatus(s.mem, i), 0));
    if Keeps(doc, j, d, Sent) {
      KeepsFrame(doc, s.mem, j, d, Sent);
    }
    if Keeps(doc, j, d, Unknown) {
      KeepsFrame(doc, s.mem, j, d, Unknown);
    }
  }

  lemma {:induction false} ResendPath(c: Config, s: State, j: JobId, d: Destination, answer: Answer) returns (actions: seq<Action>)
    requires Inv(c, s) && s.recovering && |s.mem.jobs| <= c.historyLimit && CanResend(c, s.mem, j, d)
    ensures CallsOnce(c, s, actions, j, d, answer)
    decreases |UnfinishedIds(s.mem)|
  {
    var open := UnfinishedIds(s.mem);
    if open == {} {
      actions := ClaimPath(c, s, j, d, answer);
    } else {
      var i := NextToRecover(s.mem);
      RecoverOne(c, s, i, j, d);
      var a := RecoverJob(i, 0, Plain(false));
      StepKeeps(c, s, a);
      var rest := ResendPath(c, Step(c, s, a), j, d, answer);
      Prepend(c, s, a, rest);
      actions := [a] + rest;
    }
  }

  /** Dropping another job leaves a target as it is. */
  lemma DropsOther(c: Config, doc: Document, i: JobId, j: JobId, d: Destination)
    requires Callable(c, doc, j, d) && i != j
    ensures Callable(c, Drop(doc, {i}), j, d)
  {
  }

  lemma OtherDropped(c: Config, s: State, i: JobId, j: JobId, d: Destination)
    requires Inv(c, s) && s.recovering && |s.mem.jobs| > c.historyLimit && i in UnfinishedIds(s.mem) && i != j
    requires Before(s.mem, i) == {} && CanResend(c, s.mem, j, d)
    ensures var a := RecoverJob(i, 0, Write({i}, false));
            Enabled(c, s, a) && var t := Step(c, s, a);
            t.log == s.log && t.recovering && |t.mem.jobs| < |s.mem.jobs| && CanResend(c, t.mem, j, d)
  {
    ResolvedAboveLimitGoes(c, s, i, 0, Write({i}, false));
    OneLess(c, s, RecoverJob(i, 0, Write({i}, false)), j);
    DropsOther(c, s.mem, i, j, d);
  }

  /** Above the limit the first jobs are resolved, and go, until the document is within it. */
  lemma {:induction false} ShrinkPath(c: Config, s: State, j: JobId, d: Destination, answer: Answer) returns (actions: seq<Action>)
    requires Inv(c, s) && s.recovering && CanResend(c, s.mem, j, d)
    ensures CallsOnce(c, s, actions, j, d, answer)
    decreases |s.mem.jobs|
  {
    if |s.mem.jobs| <= c.historyLimit {
      actions := ResendPath(c, s, j, d, answer);
    } else {
      AllUnfinished(s.mem, c.historyLimit);
      var i := NextToRecover(s.mem);
      OtherDropped(c, s, i, j, d);
      var a := RecoverJob(i, 0, Write({i}, false));
      StepKeeps(c, s, a);
      var rest := ShrinkPath(c, Step(c, s, a), j, d, answer);
      Prepend(c, s, a, rest);
      actions := [a] + rest;
    }
  }

  /** The run calls the target at least once more. */
  ghost predicate CallsAgain(c: Config, s: State, actions: seq<Action>, j: JobId, d: Destination) {
    Valid(c, s, actions) && CallsFor(Run(c, s, actions).log, j, d) > CallsFor(s.log, j, d)
  }

  /**
   * After a restart some run calls the destination again for this job if and only if `CanResend` holds of the
   * reloaded document, of whatever size.
   */
  lemma ResendExactlyWhen(c: Config, s: State, j: JobId, d: Destination)
    requires Inv(c, s) && j < s.nextId
    ensures var t := Step(c, s, Crash);
            CanResend(c, s.disk, j, d) <==> exists actions :: CallsAgain(c, t, actions, j, d)
  {
    var t := Step(c, s, Crash);
    StepKeeps(c, s, Crash);
    if CanResend(c, s.disk, j, d) {
      var actions := ShrinkPath(c, t, j, d, NoAnswer);
      assert CallsAgain(c, t, actions, j, d);
    } else {
      NeverResent(c, s, j, d);
    }
  }

  lemma NeverResent(c: Config, s: State, j: JobId, d: Destination)
    requires Inv(c, s) && j < s.nextId && !CanResend(c, s.disk, j, d)
    ensures var t := Step(c, s, Crash);
            !exists actions :: CallsAgain(c, t, actions, j, d)
  {
    var t := Step(c, s, Crash);
    StepKeeps(c, s, Crash);
    forall actions | Valid(c, t, actions) ensures CallsFor(Run(c, t, actions).log, j, d) == CallsFor(t.log, j, d) {
      BarredForever(c, t, actions, j, d);
    }
  }

  // --- the two sends themselves -------------------------------------------------------------------------------

  lemma {:induction false} Join(c: Config, s: State, first: seq<Action>, rest: seq<Action>)
    requires Valid(c, s, first) && Valid(c, Run(c, s, first), rest)
    ensures Valid(c, s, first + rest) && Run(c, s, first + rest) == Run(c, Run(c, s, first), rest)
    decreases |first|
  {
    if first == [] {
      assert first + rest == rest;
    } else {
      Join(c, Step(c, s, first[0]), first[1..], rest);
      Prepend(c, s, first[0], first[1..] + rest);
      HeadFirst(first, rest);
    }
  }

  lemma HeadFirst(first: seq<Action>, rest: seq<Action>)
    requires first != []
    ensures [first[0]] + (first[1..] + rest) == first + rest
  {
  }

  lemma Append(c: Config, s: State, actions: seq<Action>, a: Action)
    requires Valid(c, s, actions) && Enabled(c, Run(c, s, actions), a)
    ensures Valid(c, s, actions + [a]) && Run(c, s, actions + [a]) == Step(c, Run(c, s, actions), a)
  {
    var t := Run(c, s, actions);
    assert [a] == [a] + [] && Valid(c, Step(c, t, a), []);
    Prepend(c, t, a, []);
    Join(c, s, actions, [a]);
  }

  function ClaimedDocument(key: Key): Document {
    Document(map[0 := ClaimedJob(NewJob(key, 0), 0)], map[])
  }

  /** A first job, created and claimed with durable writes. */
  lemma FirstClaim(c: Config, key: Key) returns (actions: seq<Action>)
    requires c.historyLimit >= 1
    ensures Valid(c, Start(), actions)
    ensures Run(c, Start(), actions) ==
            State(ClaimedDocument(key), ClaimedDocument(key), map[1 := Executor(0, true, map[])], false, 2, [])
  {
    var s0 := Start();
    assert UnfinishedIds(s0.mem) == {};
    assert Valid(c, s0, []) && Run(c, s0, []) == s0;
    Append(c, s0, [], Resume);
    var s1 := Step(c, s0, Resume);
    var create := Create(key, 0, Plain(true));
    var created := Document(map[0 := NewJob(key, 0)], map[]);
    assert Written(s1, create) == created;
    QuietWrite(c.historyLimit, created);
    Append(c, s0, [] + [Resume], create);
    var s2 := Step(c, s1, create);
    var claim := Claim(0, 0, Plain(true));
    assert Written(s2, claim) == ClaimedDocument(key);
    QuietWrite(c.historyLimit, ClaimedDocument(key));
    actions := ([] + [Resume]) + [create];
    Append(c, s0, actions, claim);
    actions := actions + [claim];
  }

  /** The same job with its only delivery stored as SENDING and its lane about to call. */
  lemma FirstSending(c: Config, key: Key, d: Destination) returns (actions: seq<Action>)
    requires c.historyLimit >= 1 && d in c.destinations
    ensures Valid(c, Start(), actions)
    ensures var s := Run(c, Start(), actions);
            && HasLane(s, 1, d) && s.executors[1].job == 0 && s.executors[1].lanes[d].Ready? && s.log == []
            && s.disk == ClaimedDocument(key).(deliveries := map[2 := NewDelivery(0, d).(status := Sending)])
  {
    var first := FirstClaim(c, key);
    var s0 := Run(c, Start(), first);
    Append(c, Start(), first, Deliver(1));
    var s1 := Step(c, s0, Deliver(1));
    Append(c, Start(), first + [Deliver(1)], Fetch(1, d));
    var s2 := Step(c, s1, Fetch(1, d));
    assert s2.executors[1].lanes[d] == Fetched(None, NewDelivery(0, d)) by {
      assert RecordIds(s1.mem, 0, d) == {};
    }
    var begin := Begin(1, d, Plain(true));
    var doc := ClaimedDocument(key).(deliveries := map[2 := NewDelivery(0, d).(status := Sending)]);
    assert Written(s2, begin) == doc;
    QuietWrite(c.historyLimit, doc);
    actions := (first + [Deliver(1)]) + [Fetch(1, d)];
    Append(c, Start(), actions, begin);
    actions := actions + [begin];
  }

  lemma SendingCanResend(c: Config, key: Key, d: Destination)
    requires c.historyLimit >= 1 && d in c.destinations
    ensures var doc := ClaimedDocument(key).(deliveries := map[2 := NewDelivery(0, d).(status := Sending)]);
            CanResend(c, doc, 0, d) && |doc.jobs| == 1
  {
  }

  lemma LostAnswer(c: Config, s: State, e: ExecutorId, d: Destination) returns (actions: seq<Action>)
    requires Inv(c, s) && HasLane(s, e, d) && s.executors[e].lanes[d].Ready?
    requires |s.disk.jobs| <= c.historyLimit && CanResend(c, s.disk, s.executors[e].job, d)
    ensures Valid(c, s, actions)
    ensures AcceptedFor(Run(c, s, actions).log, s.executors[e].job, d) == AcceptedFor(s.log, s.executors[e].job, d) + 2
  {
    var j := s.executors[e].job;
    var call := Publish(e, d, Accepted);
    var t := Step(c, s, call);
    StepKeeps(c, s, call);
    AcceptedAppend(s.log, Call(e, j, d, Accepted), j, d);
    var u := Step(c, t, Crash);
    StepKeeps(c, t, Crash);
    var rest := ResendPath(c, u, j, d, Accepted);
    assert CallsOnce(c, u, rest, j, d, Accepted);
    Prepend(c, t, Crash, rest);
    Prepend(c, s, call, [Crash] + rest);
    actions := [call] + ([Crash] + rest);
  }

  lemma AcceptedTwiceRun(c: Config, key: Key, d: Destination) returns (actions: seq<Action>)
    requires c.maxAttempts >= 1 && c.historyLimit >= 1 && d in c.destinations
    ensures Valid(c, Start(), actions) && AcceptedFor(Run(c, Start(), actions).log, 0, d) == 2
  {
    var first := FirstSending(c, key, d);
    RunKeeps(c, Start(), first);
    SendingCanResend(c, key, d);
    var s := Run(c, Start(), first);
    var rest := LostAnswer(c, s, 1, d);
    Join(c, Start(), first, rest);
    assert AcceptedFor(s.log, 0, d) == 0;
    actions := first + rest;
  }

  /**
   * "A confirmed delivery is never repeated" needs its condition: with every write durable, a crash between
   * the platform's acceptance and the write of that answer leads to a second accepted send.
   */
  lemma AcceptedTwice(c: Config, key: Key, d: Destination)
    requires c.maxAttempts >= 1 && c.historyLimit >= 1 && d in c.destinations
    ensures exists actions :: Valid(c, Start(), actions) && AcceptedFor(Run(c, Start(), actions).log, 0, d) == 2
  {
    var actions := AcceptedTwiceRun(c, key, d);
  }
}
