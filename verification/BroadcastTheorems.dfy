/** What every interleaving of administrators, worker, failed writes and restarts keeps. */
module BroadcastTheorems {
  import opened Common
  import opened BroadcastModel

  // --- the invariant ----------------------------------------------------------------------------------

  predicate IsClosed(status: JobStatus) {
    status == Completed || status == Cancelled || status == Failed
  }

  ghost predicate RecipientOk(c: Config, jobs: map<JobId, Job>, x: Recipient) {
    && x.job in jobs
    && x.attempts <= c.maxAttempts
    && (x.status == Pending ==> x.attempts < c.maxAttempts && !IsClosed(jobs[x.job].status))
    && (jobs[x.job].status == Prepared ==> x.status == Pending)
  }

  ghost predicate JobOk(c: Config, doc: Document, j: JobId)
    requires j in doc.jobs
  {
    doc.jobs[j].retryCount <= c.maxRetries && doc.jobs[j].total == |RecipientsOf(doc, j)|
  }

  predicate SamePerson(a: Recipient, b: Recipient) {
    a.job == b.job && a.identity == b.identity
  }

  ghost predicate DocumentOk(c: Config, doc: Document) {
    && (forall r :: r in doc.recipients ==> RecipientOk(c, doc.jobs, doc.recipients[r]))
    && (forall j :: j in doc.jobs ==> JobOk(c, doc, j))
    && (forall a, b | a in doc.recipients && b in doc.recipients ::
          SamePerson(doc.recipients[a], doc.recipients[b]) ==> a == b)
  }

  /** A batch member was PENDING when read; since then only a cancel can have touched it. */
  ghost predicate MemberOk(doc: Document, t: Tick, r: RecipientId) {
    && r in doc.recipients && r in t.read && doc.recipients[r].job == t.job
    && (doc.recipients[r].status == Pending || doc.recipients[r].status == Skipped)
    && t.read[r].attempts == doc.recipients[r].attempts
  }

  ghost predicate TickOk(doc: Document, t: Tick) {
    && t.job in doc.jobs && doc.jobs[t.job].status != Prepared
    && Distinct(t.todo)
    && (t.stopped ==> t.held.None?)
    && (t.held.Some? ==> t.todo != [])
    && forall r :: r in t.todo ==> MemberOk(doc, t, r)
  }

  ghost predicate Inv(c: Config, s: State) {
    && c.maxAttempts >= 1
    && DocumentOk(c, s.doc)
    && (forall j :: j in s.doc.jobs ==> j < s.nextId) && (forall r :: r in s.doc.recipients ==> r < s.nextId)
    && (s.tick.Some? ==> TickOk(s.doc, s.tick.value))
  }

  // --- transactions keep the document -----------------------------------------------------------------

  /** A document whose recipients keep job and identity one by one keeps its rosters. */
  lemma RosterFrame(c: Config, a: Document, b: Document)
    requires DocumentOk(c, a) && b.jobs.Keys == a.jobs.Keys && b.recipients.Keys == a.recipients.Keys
    requires forall r :: r in a.recipients ==> SamePerson(a.recipients[r], b.recipients[r])
    requires forall j :: j in a.jobs ==> b.jobs[j].total == a.jobs[j].total && b.jobs[j].retryCount <= c.maxRetries
    requires forall r :: r in b.recipients ==> RecipientOk(c, b.jobs, b.recipients[r])
    ensures DocumentOk(c, b)
  {
    forall j | j in b.jobs ensures JobOk(c, b, j) {
      assert JobOk(c, a, j);
      assert RecipientsOf(b, j) == RecipientsOf(a, j);
    }
    forall x, y | x in b.recipients && y in b.recipients && SamePerson(b.recipients[x], b.recipients[y]) ensures x == y {
      assert SamePerson(a.recipients[x], a.recipients[y]);
    }
  }

  lemma CancelKeeps(c: Config, doc: Document, j: JobId)
    requires DocumentOk(c, doc) && j in doc.jobs
    ensures DocumentOk(c, CancelDoc(doc, j))
  {
    var t := CancelDoc(doc, j);
    assert forall i :: i in doc.jobs ==> JobOk(c, doc, i);
    forall r | r in t.recipients ensures RecipientOk(c, t.jobs, t.recipients[r]) {
      assert RecipientOk(c, doc.jobs, doc.recipients[r]);
    }
    RosterFrame(c, doc, t);
  }

  lemma RetryKeeps(c: Config, doc: Document, j: JobId)
    requires DocumentOk(c, doc) && j in doc.jobs && doc.jobs[j].retryCount < c.maxRetries && c.maxAttempts >= 1
    requires doc.jobs[j].status != Prepared
    ensures DocumentOk(c, RetryDoc(doc, j))
  {
    var t := RetryDoc(doc, j);
    assert forall i :: i in doc.jobs ==> JobOk(c, doc, i);
    forall r | r in t.recipients ensures RecipientOk(c, t.jobs, t.recipients[r]) {
      assert RecipientOk(c, doc.jobs, doc.recipients[r]);
    }
    RosterFrame(c, doc, t);
  }

  lemma FailureMeansStarted(c: Config, doc: Document, j: JobId)
    requires DocumentOk(c, doc) && j in doc.jobs && WithStatus(doc, j, Failure) != {}
    ensures doc.jobs[j].status != Prepared
  {
    var r :| r in WithStatus(doc, j, Failure);
    assert RecipientOk(c, doc.jobs, doc.recipients[r]);
  }

  lemma SetJobKeeps(c: Config, doc: Document, j: JobId, job: Job)
    requires DocumentOk(c, doc) && j in doc.jobs
    requires job.total == doc.jobs[j].total && job.retryCount == doc.jobs[j].retryCount && job.status != Prepared
    requires IsClosed(job.status) ==> WithStatus(doc, j, Pending) == {}
    ensures DocumentOk(c, SetJob(doc, j, job))
  {
    var t := SetJob(doc, j, job);
    assert forall i :: i in doc.jobs ==> JobOk(c, doc, i);
    forall r | r in t.recipients ensures RecipientOk(c, t.jobs, t.recipients[r]) {
      assert RecipientOk(c, doc.jobs, doc.recipients[r]);
      assert r !in WithStatus(doc, j, Pending) || !IsClosed(job.status);
    }
    RosterFrame(c, doc, t);
  }

  lemma OutcomeFits(c: Config, jobs: map<JobId, Job>, read: Recipient, x: Recipient, a: Answer, now: int)
    requires RecipientOk(c, jobs, x) && jobs[x.job].status != Prepared
    requires x.status == Pending && read.attempts == x.attempts
    ensures RecipientOk(c, jobs, Outcome(c, read, x, a, now)) && SamePerson(x, Outcome(c, read, x, a, now))
  {
  }

  lemma StoreKeeps(c: Config, doc: Document, r: RecipientId, read: Recipient, a: Answer, now: int)
    requires DocumentOk(c, doc) && r in doc.recipients && doc.jobs[doc.recipients[r].job].status != Prepared
    requires read.attempts == doc.recipients[r].attempts
    ensures DocumentOk(c, StoreDoc(c, doc, r, read, a, now))
  {
    var t := StoreDoc(c, doc, r, read, a, now);
    assert forall i :: i in doc.jobs ==> JobOk(c, doc, i);
    assert RecipientOk(c, doc.jobs, doc.recipients[r]);
    if doc.recipients[r].status == Pending { OutcomeFits(c, doc.jobs, read, doc.recipients[r], a, now); }
    forall x | x in t.recipients ensures RecipientOk(c, t.jobs, t.recipients[x]) && SamePerson(doc.recipients[x], t.recipients[x]) {
      if x != r { assert RecipientOk(c, doc.jobs, doc.recipients[x]); }
    }
    RosterFrame(c, doc, t);
  }

  lemma PrepareKeeps(c: Config, doc: Document, j: JobId, at: int, audience: map<RecipientId, Identity>)
    requires DocumentOk(c, doc) && c.maxAttempts >= 1 && DistinctIdentities(audience)
    requires j !in doc.jobs && audience.Keys !! doc.recipients.Keys
    ensures DocumentOk(c, PrepareDoc(doc, j, at, audience))
  {
    var t := PrepareDoc(doc, j, at, audience);
    forall r | r in t.recipients ensures RecipientOk(c, t.jobs, t.recipients[r]) {
      assert r !in audience ==> RecipientOk(c, doc.jobs, doc.recipients[r]);
    }
    assert forall r :: r in doc.recipients ==> RecipientOk(c, doc.jobs, doc.recipients[r]);
    PrepareRoster(c, doc, j, at, audience);
    forall x, y | x in t.recipients && y in t.recipients && SamePerson(t.recipients[x], t.recipients[y]) ensures x == y {
      if x in audience && y in audience {
        assert audience[x] == audience[y];
      } else if x !in audience && y !in audience {
        assert SamePerson(doc.recipients[x], doc.recipients[y]);
      }
    }
  }

  lemma PreparedRoster(doc: Document, j: JobId, at: int, audience: map<RecipientId, Identity>, i: JobId)
    requires forall r :: r in doc.recipients ==> doc.recipients[r].job in doc.jobs
    requires j !in doc.jobs && audience.Keys !! doc.recipients.Keys
    ensures RecipientsOf(PrepareDoc(doc, j, at, audience), i) == if i == j then audience.Keys else RecipientsOf(doc, i)
  {
  }

  lemma PrepareRoster(c: Config, doc: Document, j: JobId, at: int, audience: map<RecipientId, Identity>)
    requires forall i :: i in doc.jobs ==> JobOk(c, doc, i)
    requires forall r :: r in doc.recipients ==> doc.recipients[r].job in doc.jobs
    requires j !in doc.jobs && audience.Keys !! doc.recipients.Keys
    ensures forall i :: i in PrepareDoc(doc, j, at, audience).jobs ==> JobOk(c, PrepareDoc(doc, j, at, audience), i)
  {
    var t := PrepareDoc(doc, j, at, audience);
    forall i | i in t.jobs ensures JobOk(c, t, i) {
      PreparedRoster(doc, j, at, audience, i);
      assert i != j ==> JobOk(c, doc, i);
    }
  }

  // --- the running tick -------------------------------------------------------------------------------

  /** A waiting or skipped recipient still is one, with the same count. */
  predicate Steady(x: Recipient, y: Recipient) {
    x.status == Pending || x.status == Skipped ==>
      x.job == y.job && x.attempts == y.attempts && (y.status == Pending || y.status == Skipped)
  }

  ghost predicate AllSteady(a: Document, b: Document) {
    forall r :: r in a.recipients ==> r in b.recipients && Steady(a.recipients[r], b.recipients[r])
  }

  /** A transaction that only skips PENDING recipients, or requeues FAILED ones, suits a running tick. */
  lemma TickFrame(a: Document, b: Document, t: Tick)
    requires TickOk(a, t) && t.job in b.jobs && b.jobs[t.job].status != Prepared
    requires AllSteady(a, b)
    ensures TickOk(b, t)
  {
    forall r | r in t.todo ensures MemberOk(b, t, r) {
      assert MemberOk(a, t, r);
    }
  }

  lemma StoreTick(c: Config, doc: Document, t: Tick)
    requires TickOk(doc, t) && t.held.Some? && t.todo[0] in t.read
    ensures TickOk(StoreDoc(c, doc, t.todo[0], t.read[t.todo[0]], t.held.value, t.now),
                   t.(todo := t.todo[1..], held := None, stopped := t.held.value == RateLimited))
    ensures TickOk(doc, t.(todo := t.todo[1..], held := None, stopped := t.held.value == RateLimited))
  {
    forall r | r in t.todo[1..] ensures MemberOk(doc, t, r) && r != t.todo[0] {
      var i :| 0 <= i < |t.todo[1..]| && t.todo[1..][i] == r;
      assert t.todo[i + 1] == r;
    }
  }

  // --- every step keeps the invariant -----------------------------------------------------------------

  lemma CommandFrame(c: Config, s: State, doc: Document)
    requires Inv(c, s) && DocumentOk(c, doc)
    requires doc.jobs.Keys == s.doc.jobs.Keys && doc.recipients.Keys == s.doc.recipients.Keys
    requires forall j :: j in s.doc.jobs && s.doc.jobs[j].status != Prepared ==> doc.jobs[j].status != Prepared
    requires AllSteady(s.doc, doc)
    ensures Inv(c, s.(doc := doc))
  {
    if s.tick.Some? { TickFrame(s.doc, doc, s.tick.value); }
  }

  lemma ConfirmKeeps(c: Config, s: State, j: JobId)
    requires Inv(c, s) && Enabled(c, s, Confirm(j, true))
    ensures Inv(c, s.(doc := ConfirmDoc(s.doc, j)))
  {
    SetJobKeeps(c, s.doc, j, s.doc.jobs[j].(status := Running));
    CommandFrame(c, s, ConfirmDoc(s.doc, j));
  }

  lemma CancelSteady(doc: Document, j: JobId)
    requires j in doc.jobs
    ensures AllSteady(doc, CancelDoc(doc, j)) && CancelDoc(doc, j).recipients.Keys == doc.recipients.Keys
    ensures CancelDoc(doc, j).jobs.Keys == doc.jobs.Keys
    ensures forall i :: i in doc.jobs && doc.jobs[i].status != Prepared ==> CancelDoc(doc, j).jobs[i].status != Prepared
  {
  }

  lemma CancelStepKeeps(c: Config, s: State, j: JobId)
    requires Inv(c, s) && j in s.doc.jobs
    ensures Inv(c, s.(doc := CancelDoc(s.doc, j)))
  {
    CancelKeeps(c, s.doc, j);
    CancelSteady(s.doc, j);
    CommandFrame(c, s, CancelDoc(s.doc, j));
  }

  lemma RetrySteady(doc: Document, j: JobId)
    requires j in doc.jobs
    ensures AllSteady(doc, RetryDoc(doc, j)) && RetryDoc(doc, j).recipients.Keys == doc.recipients.Keys
    ensures RetryDoc(doc, j).jobs.Keys == doc.jobs.Keys
    ensures forall i :: i in doc.jobs && doc.jobs[i].status != Prepared ==> RetryDoc(doc, j).jobs[i].status != Prepared
  {
  }

  lemma RetryStepKeeps(c: Config, s: State, j: JobId)
    requires Inv(c, s) && j in s.doc.jobs && s.doc.jobs[j].retryCount < c.maxRetries
    requires WithStatus(s.doc, j, Failure) != {}
    ensures Inv(c, s.(doc := RetryDoc(s.doc, j)))
  {
    FailureMeansStarted(c, s.doc, j);
    RetryKeeps(c, s.doc, j);
    RetrySteady(s.doc, j);
    CommandFrame(c, s, RetryDoc(s.doc, j));
  }

  lemma PrepareStepKeeps(c: Config, s: State, a: Action)
    requires Inv(c, s) && Enabled(c, s, a) && a.Prepare?
    ensures Inv(c, Step(c, s, a))
  {
    if a.ok {
      PrepareKeeps(c, s.doc, s.nextId, a.at, a.audience);
      if s.tick.Some? { TickFrame(s.doc, PrepareDoc(s.doc, s.nextId, a.at, a.audience), s.tick.value); }
    }
  }

  lemma StoreStepKeeps(c: Config, s: State, a: Action)
    requires Inv(c, s) && Enabled(c, s, a) && a.StoreOutcome?
    ensures Inv(c, Step(c, s, a))
  {
    var t := s.tick.value;
    assert MemberOk(s.doc, t, t.todo[0]);
    StoreKeeps(c, s.doc, t.todo[0], t.read[t.todo[0]], t.held.value, t.now);
    StoreTick(c, s.doc, t);
  }

  lemma BackOffKeeps(c: Config, s: State, ok: bool)
    requires Inv(c, s) && Enabled(c, s, BackOff(ok))
    ensures Inv(c, Step(c, s, BackOff(ok)))
  {
    var j := s.tick.value.job;
    SetJobKeeps(c, s.doc, j, s.doc.jobs[j].(notBefore := Some(s.tick.value.now + c.backoff)));
  }

  lemma FinalizeKeeps(c: Config, s: State, ok: bool)
    requires Inv(c, s) && Enabled(c, s, Finalize(ok))
    ensures Inv(c, Step(c, s, Finalize(ok)))
  {
    var j := s.tick.value.job;
    if WithStatus(s.doc, j, Pending) == {} {
      SetJobKeeps(c, s.doc, j, s.doc.jobs[j].(status := ClosedStatus(s.doc, j)));
    }
  }

  lemma StepKeeps(c: Config, s: State, a: Action)
    requires Inv(c, s) && Enabled(c, s, a)
    ensures Inv(c, Step(c, s, a))
  {
    match a
    case Prepare(_, _, _, _) => PrepareStepKeeps(c, s, a);
    case StartTick(_, _, batch) =>
      assert forall r :: r in batch ==> MemberOk(s.doc, Step(c, s, a).tick.value, r);
    case Send(_) =>
      assert forall r :: r in s.tick.value.todo ==> MemberOk(s.doc, s.tick.value, r);
    case StoreOutcome(_) => StoreStepKeeps(c, s, a);
    case BackOff(ok) => BackOffKeeps(c, s, ok);
    case Finalize(ok) => FinalizeKeeps(c, s, ok);
    case Restart =>
    case Confirm(j, _) => ConfirmKeeps(c, s, j);
    case Cancel(j, _) => CancelStepKeeps(c, s, j);
    case Retry(j, _) => RetryStepKeeps(c, s, j);
  }

  lemma {:induction false} RunKeeps(c: Config, s: State, actions: seq<Action>)
    requires Inv(c, s) && Valid(c, s, actions)
    ensures Inv(c, Run(c, s, actions))
    decreases |actions|
  {
    if actions != [] {
      StepKeeps(c, s, actions[0]);
      RunKeeps(c, Step(c, s, actions[0]), actions[1..]);
    }
  }

  // --- conservation -----------------------------------------------------------------------------------

  /**
   * In every reachable state the five status counts of a job add up to its total, a finished job has nothing
   * pending, and no identity is enlisted twice.
   */
  lemma CountsAddUp(c: Config, actions: seq<Action>, j: JobId)
    requires c.maxAttempts >= 1 && Valid(c, Start(), actions) && j in Run(c, Start(), actions).doc.jobs
    ensures var doc := Run(c, Start(), actions).doc;
            && doc.jobs[j].total == |WithStatus(doc, j, Pending)| + |WithStatus(doc, j, Sent)| + |WithStatus(doc, j, Failure)|
                                    + |WithStatus(doc, j, Unknown)| + |WithStatus(doc, j, Skipped)|
            && (IsClosed(doc.jobs[j].status) ==> WithStatus(doc, j, Pending) == {})
            && (forall a, b | a in RecipientsOf(doc, j) && b in RecipientsOf(doc, j) ::
                  SamePerson(doc.recipients[a], doc.recipients[b]) ==> a == b)
  {
    RunKeeps(c, Start(), actions);
    var doc := Run(c, Start(), actions).doc;
    assert JobOk(c, doc, j);
    StatusPartition(doc, j);
    forall r | r in doc.recipients && doc.recipients[r].job == j && IsClosed(doc.jobs[j].status)
      ensures r !in WithStatus(doc, j, Pending)
    {
      assert RecipientOk(c, doc.jobs, doc.recipients[r]);
    }
  }

  lemma DisjointStatuses(doc: Document, j: JobId, x: RecipientStatus, y: RecipientStatus)
    requires x != y
    ensures WithStatus(doc, j, x) !! WithStatus(doc, j, y)
  {
    forall r | r in WithStatus(doc, j, x) ensures r !in WithStatus(doc, j, y) {
      assert doc.recipients[r].status == x;
    }
  }

  lemma FiveStatuses(doc: Document, j: JobId)
    ensures RecipientsOf(doc, j) == WithStatus(doc, j, Pending) + WithStatus(doc, j, Sent) + WithStatus(doc, j, Failure)
                                    + WithStatus(doc, j, Unknown) + WithStatus(doc, j, Skipped)
  {
    forall r | r in RecipientsOf(doc, j)
      ensures r in WithStatus(doc, j, Pending) + WithStatus(doc, j, Sent) + WithStatus(doc, j, Failure)
                   + WithStatus(doc, j, Unknown) + WithStatus(doc, j, Skipped)
    {
      match doc.recipients[r].status {
        case Pending => assert r in WithStatus(doc, j, Pending);
        case Sent => assert r in WithStatus(doc, j, Sent);
        case Failure => assert r in WithStatus(doc, j, Failure);
        case Unknown => assert r in WithStatus(doc, j, Unknown);
        case Skipped => assert r in WithStatus(doc, j, Skipped);
      }
    }
  }

  lemma FiveParts<T>(p: set<T>, t: set<T>, f: set<T>, u: set<T>, k: set<T>)
    requires p !! t !! f !! u !! k
    ensures |p + t + f + u + k| == |p| + |t| + |f| + |u| + |k|
  {
  }

  lemma StatusPartition(doc: Document, j: JobId)
    ensures |RecipientsOf(doc, j)| ==
            |WithStatus(doc, j, Pending)| + |WithStatus(doc, j, Sent)| + |WithStatus(doc, j, Failure)|
            + |WithStatus(doc, j, Unknown)| + |WithStatus(doc, j, Skipped)|
  {
    FiveStatuses(doc, j);
    forall x: RecipientStatus, y: RecipientStatus | x != y ensures WithStatus(doc, j, x) !! WithStatus(doc, j, y) {
      DisjointStatuses(doc, j, x, y);
    }
    FiveParts(WithStatus(doc, j, Pending), WithStatus(doc, j, Sent), WithStatus(doc, j, Failure),
              WithStatus(doc, j, Unknown), WithStatus(doc, j, Skipped));
  }

  // --- terminal outcomes ------------------------------------------------------------------------------

  predicate IsTerminal(status: RecipientStatus) {
    status == Sent || status == Unknown || status == Skipped
  }

  lemma TerminalStep(c: Config, s: State, a: Action, r: RecipientId)
    requires Inv(c, s) && Enabled(c, s, a) && r in s.doc.recipients && IsTerminal(s.doc.recipients[r].status)
    ensures r in Step(c, s, a).doc.recipients
    ensures Step(c, s, a).doc.recipients[r] == s.doc.recipients[r]
  {
  }

  /** SENT, UNKNOWN and SKIPPED are final: no command, tick, retry or restart changes such a recipient again. */
  lemma {:induction false} TerminalForever(c: Config, s: State, actions: seq<Action>, r: RecipientId)
    requires Inv(c, s) && Valid(c, s, actions) && r in s.doc.recipients && IsTerminal(s.doc.recipients[r].status)
    ensures r in Run(c, s, actions).doc.recipients
    ensures Run(c, s, actions).doc.recipients[r] == s.doc.recipients[r]
    decreases |actions|
  {
    if actions != [] {
      StepKeeps(c, s, actions[0]);
      TerminalStep(c, s, actions[0], r);
      TerminalForever(c, Step(c, s, actions[0]), actions[1..], r);
    }
  }

  // --- runs in which an outcome is recorded -----------------------------------------------------------

  /** `r` was sent by the running tick and its answer is not stored yet. */
  predicate Held(s: State, r: RecipientId) {
    s.tick.Some? && s.tick.value.held.Some? && s.tick.value.todo != [] && s.tick.value.todo[0] == r
  }

  /** The write of an outcome fails, or the process restarts, while a recipient that is still PENDING has an answer. */
  predicate LosesAnswer(s: State, a: Action, r: RecipientId) {
    && ((a.StoreOutcome? && !a.ok) || a.Restart?)
    && Held(s, r) && r in s.doc.recipients && s.doc.recipients[r].status == Pending
  }

  /** What must not be lost: an acceptance, also a send without an answer, or any answer that counts as an attempt. */
  datatype Matter = Acceptance | Decision | Attempt

  predicate Matters(m: Matter, a: Answer) {
    match m
    case Acceptance => a == Accepted
    case Decision => a == Accepted || a == NoAnswer
    case Attempt => a != RateLimited
  }

  predicate AnswerKept(m: Matter, s: State, a: Action, r: RecipientId) {
    LosesAnswer(s, a, r) ==> !Matters(m, s.tick.value.held.value)
  }

  /** No answer to this recipient that matters is lost before it is stored. */
  ghost predicate AnswersKept(m: Matter, c: Config, s: State, actions: seq<Action>, r: RecipientId)
    requires Valid(c, s, actions)
    decreases |actions|
  {
    actions == [] || (AnswerKept(m, s, actions[0], r) && AnswersKept(m, c, Step(c, s, actions[0]), actions[1..], r))
  }

  function CountOf(log: seq<Entry>, r: RecipientId, m: Matter): nat {
    if log == [] then 0
    else
      var last := log[|log| - 1];
      CountOf(log[..|log| - 1], r, m) + if last.recipient == r && Matters(m, last.answer) then 1 else 0
  }

  /** Attempts that counted over the whole life of a recipient; rate-limited tries are not among them. */
  function Attempts(log: seq<Entry>, r: RecipientId): nat {
    CountOf(log, r, Attempt)
  }

  function AcceptedSends(log: seq<Entry>, r: RecipientId): nat {
    CountOf(log, r, Acceptance)
  }

  lemma CountAppend(log: seq<Entry>, e: Entry, r: RecipientId, m: Matter)
    ensures CountOf(log + [e], r, m) == CountOf(log, r, m) + if e.recipient == r && Matters(m, e.answer) then 1 else 0
  {
    assert (log + [e])[..|log|] == log;
  }

  /** `r` is in the running batch and still to be sent. */
  predicate ToSend(s: State, r: RecipientId) {
    s.tick.Some? && r in s.tick.value.todo && !Held(s, r)
  }

  function One(b: bool): nat {
    if b then 1 else 0
  }

  function Base(c: Config, retries: nat): nat {
    c.maxAttempts * retries
  }

  lemma BaseGrows(c: Config, retries: nat)
    ensures Base(c, retries + 1) == Base(c, retries) + c.maxAttempts
  {
  }

  /** The attempts a recipient may have used: `maxAttempts` for the first run and for each manual retry so far. */
  ghost predicate Budget(c: Config, x: Recipient, retries: nat, used: int, held: bool, toSend: bool) {
    var base := Base(c, retries);
    match x.status
    case Pending => used <= base + x.attempts + One(held)
    case Skipped => used + One(toSend) <= base + c.maxAttempts
    case _ => used <= base + c.maxAttempts
  }

  /**
   * `Budget` of a stored recipient: `held` is a counted answer not stored yet, `toSend` a send still to come, and
   * `extra` the attempts it is ahead of its budget, behind when negative.
   */
  ghost predicate WithinBudget(c: Config, s: State, r: RecipientId, extra: int) {
    if r !in s.doc.recipients then Attempts(s.log, r) == 0 <= extra
    else
      var x := s.doc.recipients[r];
      x.job in s.doc.jobs &&
      Budget(c, x, s.doc.jobs[x.job].retryCount, Attempts(s.log, r) - extra,
             Held(s, r) && Counted(s.tick.value.held.value), ToSend(s, r))
  }

  lemma TodoTail(t: Tick, r: RecipientId)
    requires t.todo != [] && Distinct(t.todo)
    ensures r in t.todo[1..] <==> r in t.todo && r != t.todo[0]
  {
    if r in t.todo && r != t.todo[0] {
      var i :| 0 <= i < |t.todo| && t.todo[i] == r;
      assert t.todo[1..][i - 1] == r;
    }
    if r in t.todo[1..] {
      var i :| 0 <= i < |t.todo[1..]| && t.todo[1..][i] == r;
      assert t.todo[i + 1] == r;
    }
  }

  /** A send concerns the first of the batch: its answer is held from now on, for the others nothing changes. */
  lemma SendLane(c: Config, s: State, a: Action, r: RecipientId)
    requires Enabled(c, s, a) && a.Send?
    ensures !Held(s, r) && (Held(Step(c, s, a), r) <==> r == s.tick.value.todo[0])
    ensures r == s.tick.value.todo[0] ==> ToSend(s, r) && !ToSend(Step(c, s, a), r)
    ensures r != s.tick.value.todo[0] ==> (ToSend(Step(c, s, a), r) <==> ToSend(s, r))
  {
  }

  lemma BudgetSend(c: Config, s: State, a: Action, r: RecipientId, extra: int)
    requires Inv(c, s) && Enabled(c, s, a) && WithinBudget(c, s, r, extra) && a.Send?
    ensures WithinBudget(c, Step(c, s, a), r, extra)
  {
    var first := s.tick.value.todo[0];
    CountAppend(s.log, Entry(first, a.answer), r, Attempt);
    assert MemberOk(s.doc, s.tick.value, first);
  }

  lemma BudgetStore(c: Config, s: State, a: Action, r: RecipientId, extra: int)
    requires Inv(c, s) && Enabled(c, s, a) && WithinBudget(c, s, r, extra) && a.StoreOutcome?
    requires AnswerKept(Attempt, s, a, r)
    ensures WithinBudget(c, Step(c, s, a), r, extra)
  {
    var t := s.tick.value;
    TodoTail(t, r);
    assert MemberOk(s.doc, t, t.todo[0]);
    assert RecipientOk(c, s.doc.jobs, s.doc.recipients[t.todo[0]]);
  }

  /** A manual retry adds a budget; a requeued recipient counts its attempts from zero again. */
  lemma RetriedBudget(c: Config, x: Recipient, j: JobId, retries: nat, used: int, held: bool, toSend: bool)
    requires Budget(c, x, retries, used, held, toSend) && x.attempts <= c.maxAttempts
    ensures Budget(c, Changed(x, j, Failure, Requeue), if x.job == j then retries + 1 else retries, used, held, toSend)
  {
    BaseGrows(c, retries);
  }

  lemma BudgetRetry(c: Config, s: State, j: JobId, r: RecipientId, extra: int)
    requires Inv(c, s) && j in s.doc.jobs && WithinBudget(c, s, r, extra)
    ensures WithinBudget(c, s.(doc := RetryDoc(s.doc, j)), r, extra)
  {
    if r in s.doc.recipients {
      var x := s.doc.recipients[r];
      assert RecipientOk(c, s.doc.jobs, x);
      RetriedBudget(c, x, j, s.doc.jobs[x.job].retryCount, Attempts(s.log, r) - extra,
                    Held(s, r) && Counted(s.tick.value.held.value), ToSend(s, r));
    }
  }

  lemma BudgetCancel(c: Config, s: State, j: JobId, r: RecipientId, extra: int)
    requires Inv(c, s) && j in s.doc.jobs && WithinBudget(c, s, r, extra)
    ensures WithinBudget(c, s.(doc := CancelDoc(s.doc, j)), r, extra)
  {
    if r in s.doc.recipients {
      assert RecipientOk(c, s.doc.jobs, s.doc.recipients[r]);
    }
  }

  lemma BudgetStart(c: Config, s: State, a: Action, r: RecipientId, extra: int)
    requires Inv(c, s) && Enabled(c, s, a) && WithinBudget(c, s, r, extra) && a.StartTick?
    ensures WithinBudget(c, Step(c, s, a), r, extra)
  {
    assert r in a.batch ==> r in WithStatus(s.doc, a.job, Pending);
  }

  /** These steps change neither the record of a recipient nor its job's retries; they end a tick or leave it alone. */
  lemma BystanderStep(c: Config, s: State, a: Action, r: RecipientId)
    requires Enabled(c, s, a) && r in s.doc.recipients && r < s.nextId
    requires s.doc.recipients[r].job in s.doc.jobs && s.nextId !in s.doc.jobs
    requires a.Prepare? || a.Confirm? || a.BackOff? || a.Finalize? || a.Restart?
    ensures var t := Step(c, s, a);
            var j := s.doc.recipients[r].job;
            && t.log == s.log && (t.tick == s.tick || t.tick.None?)
            && r in t.doc.recipients && t.doc.recipients[r] == s.doc.recipients[r]
            && j in t.doc.jobs && t.doc.jobs[j].retryCount == s.doc.jobs[j].retryCount
  {
  }

  lemma BudgetBystander(c: Config, s: State, a: Action, r: RecipientId, extra: int)
    requires Inv(c, s) && Enabled(c, s, a) && WithinBudget(c, s, r, extra) && AnswerKept(Attempt, s, a, r)
    requires a.Prepare? || a.Confirm? || a.BackOff? || a.Finalize? || a.Restart?
    ensures WithinBudget(c, Step(c, s, a), r, extra)
  {
    if r in s.doc.recipients {
      assert RecipientOk(c, s.doc.jobs, s.doc.recipients[r]);
      BystanderStep(c, s, a, r);
    }
  }

  lemma BudgetStep(c: Config, s: State, a: Action, r: RecipientId, extra: int)
    requires Inv(c, s) && Enabled(c, s, a) && WithinBudget(c, s, r, extra) && AnswerKept(Attempt, s, a, r)
    ensures WithinBudget(c, Step(c, s, a), r, extra)
  {
    match a
    case Send(_) => BudgetSend(c, s, a, r, extra);
    case StoreOutcome(_) => BudgetStore(c, s, a, r, extra);
    case Retry(j, ok) => if ok { BudgetRetry(c, s, j, r, extra); }
    case StartTick(_, _, _) => BudgetStart(c, s, a, r, extra);
    case Cancel(j, ok) => if ok { BudgetCancel(c, s, j, r, extra); }
    case _ => BudgetBystander(c, s, a, r, extra);
  }

  lemma {:induction false} AttemptsAllowed(c: Config, s: State, actions: seq<Action>, r: RecipientId, extra: int)
    requires Inv(c, s) && Valid(c, s, actions) && AnswersKept(Attempt, c, s, actions, r) && WithinBudget(c, s, r, extra)
    ensures Attempts(Run(c, s, actions).log, r) <= extra + c.maxAttempts * (1 + c.maxRetries)
    decreases |actions|
  {
    if actions == [] {
      if r in s.doc.recipients {
        assert RecipientOk(c, s.doc.jobs, s.doc.recipients[r]);
        var j := s.doc.recipients[r].job;
        assert JobOk(c, s.doc, j);
        BaseMonotone(c, s.doc.jobs[j].retryCount);
      }
    } else {
      StepKeeps(c, s, actions[0]);
      BudgetStep(c, s, actions[0], r, extra);
      AttemptsAllowed(c, Step(c, s, actions[0]), actions[1..], r, extra);
    }
  }

  /**
   * Over the whole life of a job, whatever is confirmed, cancelled, retried, rate-limited or restarted, one
   * recipient gets at most `maxAttempts * (1 + maxRetries)` counted attempts.
   */
  lemma AttemptsBounded(c: Config, s: State, actions: seq<Action>, r: RecipientId)
    requires Inv(c, s) && Valid(c, s, actions) && AnswersKept(Attempt, c, s, actions, r) && WithinBudget(c, s, r, 0)
    ensures Attempts(Run(c, s, actions).log, r) <= c.maxAttempts * (1 + c.maxRetries)
  {
    AttemptsAllowed(c, s, actions, r, 0);
  }

  lemma BaseMonotone(c: Config, retries: nat)
    requires retries <= c.maxRetries
    ensures Base(c, retries) + c.maxAttempts <= c.maxAttempts * (1 + c.maxRetries)
  {
    assert c.maxAttempts * (c.maxRetries - retries) >= 0;
  }

  // --- nothing follows an accepted or an unanswered send ------------------------------------------------

  predicate AnsweredAt(m: Matter, log: seq<Entry>, i: int, r: RecipientId) {
    0 <= i < |log| && log[i].recipient == r && Matters(m, log[i].answer)
  }

  ghost predicate SomeAnswer(m: Matter, log: seq<Entry>, r: RecipientId) {
    exists i :: AnsweredAt(m, log, i, r)
  }

  /** No send to the recipient follows an answer that matters. */
  ghost predicate NoneFollows(m: Matter, log: seq<Entry>, r: RecipientId) {
    forall i, k | 0 <= k < |log| && log[k].recipient == r :: AnsweredAt(m, log, i, r) ==> k <= i
  }

  lemma SendAdded(m: Matter, log: seq<Entry>, e: Entry, r: RecipientId)
    requires NoneFollows(m, log, r) && (e.recipient == r ==> !SomeAnswer(m, log, r))
    ensures NoneFollows(m, log + [e], r)
    ensures SomeAnswer(m, log + [e], r) ==> SomeAnswer(m, log, r) || (e.recipient == r && Matters(m, e.answer))
  {
    var after := log + [e];
    forall i | 0 <= i < |log| ensures after[i] == log[i] && (AnsweredAt(m, after, i, r) <==> AnsweredAt(m, log, i, r)) {
    }
  }

  /** After an answer that matters the recipient is stored as SENT or UNKNOWN, or was cancelled and is not in the batch. */
  ghost predicate AnsweredOnce(m: Matter, s: State, r: RecipientId) {
    && NoneFollows(m, s.log, r)
    && (r !in s.doc.recipients ==> !SomeAnswer(m, s.log, r))
    && (SomeAnswer(m, s.log, r) && r in s.doc.recipients ==>
          || s.doc.recipients[r].status == Sent
          || (m == Decision && s.doc.recipients[r].status == Unknown)
          || (Held(s, r) && Matters(m, s.tick.value.held.value))
          || (s.doc.recipients[r].status == Skipped && !ToSend(s, r)))
  }

  lemma AnsweredSend(m: Matter, c: Config, s: State, a: Action, r: RecipientId)
    requires Inv(c, s) && Enabled(c, s, a) && AnsweredOnce(m, s, r) && a.Send?
    ensures AnsweredOnce(m, Step(c, s, a), r)
  {
    var first := s.tick.value.todo[0];
    SendLane(c, s, a, r);
    if r == first {
      assert MemberOk(s.doc, s.tick.value, first);
      assert !SomeAnswer(m, s.log, r);
    }
    SendAdded(m, s.log, Entry(first, a.answer), r);
  }

  lemma AnsweredStore(m: Matter, c: Config, s: State, a: Action, r: RecipientId)
    requires Inv(c, s) && Enabled(c, s, a) && AnsweredOnce(m, s, r) && a.StoreOutcome?
    requires m != Attempt && AnswerKept(m, s, a, r)
    ensures AnsweredOnce(m, Step(c, s, a), r)
  {
    TodoTail(s.tick.value, r);
    assert MemberOk(s.doc, s.tick.value, s.tick.value.todo[0]);
  }

  /** A command, the end of a tick or a restart: final outcomes stay, and no send is added. */
  lemma AnsweredOther(m: Matter, c: Config, s: State, a: Action, r: RecipientId)
    requires Inv(c, s) && Enabled(c, s, a) && AnsweredOnce(m, s, r) && AnswerKept(m, s, a, r)
    requires !a.Send? && !a.StoreOutcome? && !a.StartTick?
    ensures AnsweredOnce(m, Step(c, s, a), r)
  {
    if Held(s, r) { assert MemberOk(s.doc, s.tick.value, r); }
    if r in s.doc.recipients && IsTerminal(s.doc.recipients[r].status) {
      TerminalStep(c, s, a, r);
    }
  }

  lemma AnsweredStep(m: Matter, c: Config, s: State, a: Action, r: RecipientId)
    requires Inv(c, s) && Enabled(c, s, a) && AnsweredOnce(m, s, r) && m != Attempt && AnswerKept(m, s, a, r)
    ensures AnsweredOnce(m, Step(c, s, a), r)
  {
    if a.Send? {
      AnsweredSend(m, c, s, a, r);
    } else if a.StoreOutcome? {
      AnsweredStore(m, c, s, a, r);
    } else if a.StartTick? {
      assert r in a.batch ==> r in WithStatus(s.doc, a.job, Pending);
    } else {
      AnsweredOther(m, c, s, a, r);
    }
  }

  /** While no answer that matters is lost no send to the recipient follows one, after cancels and manual retries either. */
  lemma {:induction false} NoSendFollows(m: Matter, c: Config, s: State, actions: seq<Action>, r: RecipientId)
    requires Inv(c, s) && Valid(c, s, actions) && m != Attempt && AnswersKept(m, c, s, actions, r) && AnsweredOnce(m, s, r)
    ensures NoneFollows(m, Run(c, s, actions).log, r)
    decreases |actions|
  {
    if actions != [] {
      StepKeeps(c, s, actions[0]);
      AnsweredStep(m, c, s, actions[0], r);
      NoSendFollows(m, c, Step(c, s, actions[0]), actions[1..], r);
    }
  }

  lemma {:induction false} AcceptedOnceIn(log: seq<Entry>, r: RecipientId)
    requires NoneFollows(Acceptance, log, r)
    ensures AcceptedSends(log, r) <= 1 && (AcceptedSends(log, r) == 1 ==> SomeAnswer(Acceptance, log, r))
    decreases |log|
  {
    if log != [] {
      var n := |log| - 1;
      forall i | 0 <= i < n ensures log[..n][i] == log[i] {
      }
      assert forall i :: AnsweredAt(Acceptance, log[..n], i, r) ==> AnsweredAt(Acceptance, log, i, r);
      AcceptedOnceIn(log[..n], r);
      if log[n].recipient == r && log[n].answer == Accepted {
        assert AnsweredAt(Acceptance, log, n, r);
      }
    }
  }

  /** Each recipient gets at most one accepted message, cancels in mid-batch and manual retries included. */
  lemma AtMostOneAccepted(c: Config, s: State, actions: seq<Action>, r: RecipientId)
    requires Inv(c, s) && Valid(c, s, actions) && AnswersKept(Acceptance, c, s, actions, r) && AnsweredOnce(Acceptance, s, r)
    ensures AcceptedSends(Run(c, s, actions).log, r) <= 1
  {
    NoSendFollows(Acceptance, c, s, actions, r);
    AcceptedOnceIn(Run(c, s, actions).log, r);
  }

  /**
   * From the start: a recipient whose send was accepted, or remained without an answer, is never sent to again, not by a
   * manual retry either, unless such an answer is lost while the recipient is PENDING.
   */
  lemma DecidedIsLast(c: Config, actions: seq<Action>, r: RecipientId, i: nat, k: nat)
    requires c.maxAttempts >= 1 && Valid(c, Start(), actions) && AnswersKept(Decision, c, Start(), actions, r)
    requires var log := Run(c, Start(), actions).log;
             && i < |log| && log[i].recipient == r && (log[i].answer == Accepted || log[i].answer == NoAnswer)
             && k < |log| && log[k].recipient == r
    ensures k <= i
  {
    NoSendFollows(Decision, c, Start(), actions, r);
    assert AnsweredAt(Decision, Run(c, Start(), actions).log, i, r);
  }

  lemma {:induction false} AttemptsIncludeAcceptances(c: Config, s: State, actions: seq<Action>, r: RecipientId)
    requires Valid(c, s, actions) && AnswersKept(Attempt, c, s, actions, r)
    ensures AnswersKept(Acceptance, c, s, actions, r)
    decreases |actions|
  {
    if actions != [] {
      AttemptsIncludeAcceptances(c, Step(c, s, actions[0]), actions[1..], r);
    }
  }

  /**
   * Both bounds from the start, for one recipient at a time: failed outcome writes and restarts matter only while an
   * acceptance, or for the second bound a counted answer, of this recipient waits to be stored and it is PENDING.
   */
  lemma BroadcastSafety(c: Config, actions: seq<Action>, r: RecipientId)
    requires c.maxAttempts >= 1 && Valid(c, Start(), actions)
    ensures AnswersKept(Acceptance, c, Start(), actions, r) ==> AcceptedSends(Run(c, Start(), actions).log, r) <= 1
    ensures AnswersKept(Attempt, c, Start(), actions, r) ==>
              && AcceptedSends(Run(c, Start(), actions).log, r) <= 1
              && Attempts(Run(c, Start(), actions).log, r) <= c.maxAttempts * (1 + c.maxRetries)
  {
    if AnswersKept(Attempt, c, Start(), actions, r) {
      AttemptsIncludeAcceptances(c, Start(), actions, r);
      AttemptsBounded(c, Start(), actions, r);
    }
    if AnswersKept(Acceptance, c, Start(), actions, r) {
      AtMostOneAccepted(c, Start(), actions, r);
    }
  }

  // --- who can be sent to again -------------------------------------------------------------------------

  /** The stored record allows a send: PENDING, or FAILED with a manual retry left. */
  predicate CanSend(c: Config, doc: Document, r: RecipientId) {
    && r in doc.recipients && doc.recipients[r].job in doc.jobs
    && (|| doc.recipients[r].status == Pending
        || (doc.recipients[r].status == Failure && doc.jobs[doc.recipients[r].job].retryCount < c.maxRetries))
  }

  /** The run loses no acceptance of `r` itself, and sends it one more accepted message. */
  ghost predicate SendsMore(c: Config, s: State, actions: seq<Action>, r: RecipientId) {
    && Valid(c, s, actions) && AnswersKept(Acceptance, c, s, actions, r)
    && AcceptedSends(Run(c, s, actions).log, r) == AcceptedSends(s.log, r) + 1
  }

  lemma Front(c: Config, s: State, a: Action, rest: seq<Action>)
    requires Enabled(c, s, a) && Valid(c, Step(c, s, a), rest)
    ensures Valid(c, s, [a] + rest) && Run(c, s, [a] + rest) == Run(c, Step(c, s, a), rest)
  {
    assert ([a] + rest)[1..] == rest;
  }

  lemma OneMore(c: Config, s: State, a: Action, rest: seq<Action>, r: RecipientId)
    requires Enabled(c, s, a) && Valid(c, Step(c, s, a), rest) && AnswerKept(Acceptance, s, a, r)
    ensures Valid(c, s, [a] + rest) && Run(c, s, [a] + rest) == Run(c, Step(c, s, a), rest)
    ensures AnswersKept(Acceptance, c, Step(c, s, a), rest, r) ==> AnswersKept(Acceptance, c, s, [a] + rest, r)
  {
    assert ([a] + rest)[1..] == rest;
  }

  /** Put a step that calls nobody in front. */
  lemma After(c: Config, s: State, a: Action, rest: seq<Action>, r: RecipientId)
    requires Enabled(c, s, a) && AnswerKept(Acceptance, s, a, r) && Step(c, s, a).log == s.log
    requires SendsMore(c, Step(c, s, a), rest, r)
    ensures SendsMore(c, s, [a] + rest, r)
  {
    OneMore(c, s, a, rest, r);
  }

  function Latest(a: Option<int>, b: Option<int>): int {
    if a.Some? && (b.None? || a.value >= b.value) then a.value else if b.Some? then b.value else 0
  }

  /** Between two ticks a PENDING recipient is sent to, after a confirmation when the job waits for one. */
  lemma PendingIsSent(c: Config, s: State, r: RecipientId) returns (actions: seq<Action>)
    requires Inv(c, s) && s.tick.None? && c.batchSize >= 1
    requires r in s.doc.recipients && s.doc.recipients[r].status == Pending
    ensures SendsMore(c, s, actions, r)
  {
    var j := s.doc.recipients[r].job;
    assert RecipientOk(c, s.doc.jobs, s.doc.recipients[r]);
    if s.doc.jobs[j].status == Prepared {
      StepKeeps(c, s, Confirm(j, true));
      var t := Step(c, s, Confirm(j, true));
      var rest := RunningIsSent(c, t, r);
      After(c, s, Confirm(j, true), rest, r);
      actions := [Confirm(j, true)] + rest;
    } else {
      actions := RunningIsSent(c, s, r);
    }
  }

  lemma RunningIsSent(c: Config, s: State, r: RecipientId) returns (actions: seq<Action>)
    requires s.tick.None? && c.batchSize >= 1
    requires r in s.doc.recipients && s.doc.recipients[r].status == Pending
    requires s.doc.recipients[r].job in s.doc.jobs && s.doc.jobs[s.doc.recipients[r].job].status == Running
    ensures SendsMore(c, s, actions, r)
  {
    var j := s.doc.recipients[r].job;
    var start := StartTick(j, Latest(s.doc.jobs[j].notBefore, s.doc.recipients[r].notBefore), [r]);
    assert r in WithStatus(s.doc, j, Pending);
    var s1 := Step(c, s, start);
    OneMore(c, s1, Send(Accepted), [], r);
    OneMore(c, s, start, [Send(Accepted)] + [], r);
    CountAppend(s.log, Entry(r, Accepted), r, Acceptance);
    actions := [start] + ([Send(Accepted)] + []);
  }

  /** Between two ticks a FAILED recipient is requeued and sent to, after a cancel when its job still runs. */
  lemma FailedIsSent(c: Config, s: State, r: RecipientId) returns (actions: seq<Action>)
    requires Inv(c, s) && s.tick.None? && c.batchSize >= 1 && CanSend(c, s.doc, r)
    requires s.doc.recipients[r].status == Failure
    ensures SendsMore(c, s, actions, r)
  {
    var j := s.doc.recipients[r].job;
    if s.doc.jobs[j].status == Running {
      var t := Step(c, s, Cancel(j, true));
      assert t.doc.recipients[r] == s.doc.recipients[r];
      var rest := RequeuedIsSent(c, t, r);
      After(c, s, Cancel(j, true), rest, r);
      actions := [Cancel(j, true)] + rest;
    } else {
      actions := RequeuedIsSent(c, s, r);
    }
  }

  lemma RequeuedIsSent(c: Config, s: State, r: RecipientId) returns (actions: seq<Action>)
    requires s.tick.None? && c.batchSize >= 1 && CanSend(c, s.doc, r) && s.doc.recipients[r].status == Failure
    requires s.doc.jobs[s.doc.recipients[r].job].status != Running
    ensures SendsMore(c, s, actions, r)
  {
    var j := s.doc.recipients[r].job;
    assert r in WithStatus(s.doc, j, Failure);
    var t := Step(c, s, Retry(j, true));
    var rest := RunningIsSent(c, t, r);
    After(c, s, Retry(j, true), rest, r);
    actions := [Retry(j, true)] + rest;
  }

  /** Not waiting in the running batch, and with a record that allows no further send. */
  ghost predicate Spent(c: Config, s: State, r: RecipientId) {
    r in s.doc.recipients && !CanSend(c, s.doc, r) && !ToSend(s, r)
  }

  lemma SpentSend(c: Config, s: State, a: Action, r: RecipientId)
    requires Enabled(c, s, a) && Spent(c, s, r) && a.Send?
    ensures Spent(c, Step(c, s, a), r)
    ensures AcceptedSends(Step(c, s, a).log, r) == AcceptedSends(s.log, r)
    ensures Attempts(Step(c, s, a).log, r) == Attempts(s.log, r)
  {
    SendLane(c, s, a, r);
    CountAppend(s.log, Entry(s.tick.value.todo[0], a.answer), r, Acceptance);
    CountAppend(s.log, Entry(s.tick.value.todo[0], a.answer), r, Attempt);
  }

  lemma SpentStore(c: Config, s: State, a: Action, r: RecipientId)
    requires Inv(c, s) && Enabled(c, s, a) && Spent(c, s, r) && a.StoreOutcome?
    ensures Spent(c, Step(c, s, a), r)
  {
    TodoTail(s.tick.value, r);
    assert MemberOk(s.doc, s.tick.value, s.tick.value.todo[0]);
  }

  lemma SpentRetry(c: Config, s: State, j: JobId, r: RecipientId)
    requires Enabled(c, s, Retry(j, true)) && Spent(c, s, r) && s.doc.recipients[r].job in s.doc.jobs
    ensures Spent(c, s.(doc := RetryDoc(s.doc, j)), r)
  {
  }

  lemma SpentCancel(c: Config, s: State, j: JobId, r: RecipientId)
    requires Enabled(c, s, Cancel(j, true)) && Spent(c, s, r) && s.doc.recipients[r].job in s.doc.jobs
    ensures Spent(c, s.(doc := CancelDoc(s.doc, j)), r)
  {
  }

  lemma SpentStart(c: Config, s: State, a: Action, r: RecipientId)
    requires Enabled(c, s, a) && Spent(c, s, r) && s.doc.recipients[r].job in s.doc.jobs && a.StartTick?
    ensures Spent(c, Step(c, s, a), r)
  {
    assert r in a.batch ==> r in WithStatus(s.doc, a.job, Pending);
  }

  lemma SpentStep(c: Config, s: State, a: Action, r: RecipientId)
    requires Inv(c, s) && Enabled(c, s, a) && Spent(c, s, r)
    ensures Spent(c, Step(c, s, a), r)
    ensures AcceptedSends(Step(c, s, a).log, r) == AcceptedSends(s.log, r)
    ensures Attempts(Step(c, s, a).log, r) == Attempts(s.log, r)
  {
    assert RecipientOk(c, s.doc.jobs, s.doc.recipients[r]);
    match a
    case Send(_) => SpentSend(c, s, a, r);
    case StoreOutcome(_) => SpentStore(c, s, a, r);
    case Retry(j, ok) => if ok { SpentRetry(c, s, j, r); }
    case Cancel(j, ok) => if ok { SpentCancel(c, s, j, r); }
    case StartTick(_, _, _) => SpentStart(c, s, a, r);
    case _ => BystanderStep(c, s, a, r);
  }

  lemma {:induction false} SpentForever(c: Config, s: State, actions: seq<Action>, r: RecipientId)
    requires Inv(c, s) && Valid(c, s, actions) && Spent(c, s, r)
    ensures AcceptedSends(Run(c, s, actions).log, r) == AcceptedSends(s.log, r)
    ensures Attempts(Run(c, s, actions).log, r) == Attempts(s.log, r)
    decreases |actions|
  {
    if actions != [] {
      StepKeeps(c, s, actions[0]);
      SpentStep(c, s, actions[0], r);
      SpentForever(c, Step(c, s, actions[0]), actions[1..], r);
    }
  }

  /**
   * Some run sends a recipient another accepted message if and only if its stored record allows it, provided no
   * answer of it is on its way and it does not wait in the running batch.
   */
  lemma SendableExactly(c: Config, s: State, r: RecipientId)
    requires Inv(c, s) && c.batchSize >= 1 && r in s.doc.recipients && !ToSend(s, r) && !Held(s, r)
    ensures (exists actions :: SendsMore(c, s, actions, r)) <==> CanSend(c, s.doc, r)
  {
    if CanSend(c, s.doc, r) {
      var t := Step(c, s, Restart);
      StepKeeps(c, s, Restart);
      var rest: seq<Action>;
      if s.doc.recipients[r].status == Pending {
        rest := PendingIsSent(c, t, r);
      } else {
        rest := FailedIsSent(c, t, r);
      }
      After(c, s, Restart, rest, r);
      assert SendsMore(c, s, [Restart] + rest, r);
    } else {
      forall actions | Valid(c, s, actions) ensures AcceptedSends(Run(c, s, actions).log, r) == AcceptedSends(s.log, r) {
        SpentForever(c, s, actions, r);
      }
    }
  }

  /**
   * The condition of `AtMostOneAccepted` is exact: when a write or a restart drops an acceptance, some run accepts
   * once more if and only if the recipient is still PENDING, that is, unless it was cancelled meanwhile.
   */
  lemma LostAcceptanceExactly(c: Config, s: State, a: Action, r: RecipientId)
    requires Inv(c, s) && Enabled(c, s, a) && c.batchSize >= 1 && ((a.StoreOutcome? && !a.ok) || a.Restart?)
    requires Held(s, r) && s.tick.value.held.value == Accepted
    ensures (exists actions :: SendsMore(c, Step(c, s, a), actions, r)) <==> LosesAnswer(s, a, r)
  {
    assert MemberOk(s.doc, s.tick.value, r);
    assert RecipientOk(c, s.doc.jobs, s.doc.recipients[r]);
    TodoTail(s.tick.value, r);
    StepKeeps(c, s, a);
    SendableExactly(c, Step(c, s, a), r);
  }

  // --- how many attempts are left ------------------------------------------------------------------------

  /** What a record and the manual retries left still allow. */
  function Left(c: Config, x: Recipient, retries: nat): nat
    requires x.attempts <= c.maxAttempts && retries <= c.maxRetries
  {
    match x.status
    case Pending => c.maxAttempts - x.attempts + Base(c, c.maxRetries - retries)
    case Failure => Base(c, c.maxRetries - retries)
    case _ => 0
  }

  function Remaining(c: Config, doc: Document, r: RecipientId): nat
    requires r in doc.recipients && RecipientOk(c, doc.jobs, doc.recipients[r]) && JobOk(c, doc, doc.recipients[r].job)
  {
    Left(c, doc.recipients[r], doc.jobs[doc.recipients[r].job].retryCount)
  }

  lemma LeftRequeued(c: Config, x: Recipient, retries: nat)
    requires x.attempts <= c.maxAttempts && retries < c.maxRetries && x.status == Failure
    ensures Left(c, Requeue(x), retries + 1) == Left(c, x, retries)
  {
    BaseGrows(c, c.maxRetries - retries - 1);
  }

  lemma LeftRefused(c: Config, x: Recipient, retries: nat, now: int)
    requires x.attempts < c.maxAttempts && retries <= c.maxRetries && x.status == Pending
    ensures Left(c, Outcome(c, x, x, Refused, now), retries) + 1 == Left(c, x, retries)
  {
  }

  lemma StoredOk(c: Config, s: State, r: RecipientId)
    requires Inv(c, s) && r in s.doc.recipients
    ensures RecipientOk(c, s.doc.jobs, s.doc.recipients[r]) && JobOk(c, s.doc, s.doc.recipients[r].job)
  {
  }

  /** How far a recipient that has made this many attempts is ahead of its budget. */
  function Ahead(c: Config, x: Recipient, retries: nat, made: nat): int {
    made - Base(c, retries) - if x.status == Pending then x.attempts else c.maxAttempts
  }

  lemma AheadLeaves(c: Config, x: Recipient, retries: nat, made: nat)
    requires x.attempts <= c.maxAttempts && retries <= c.maxRetries && (x.status == Pending || x.status == Failure)
    ensures Ahead(c, x, retries, made) + c.maxAttempts * (1 + c.maxRetries) == made + Left(c, x, retries)
    ensures Budget(c, x, retries, made - Ahead(c, x, retries, made), false, false)
  {
    assert Base(c, retries) + Base(c, c.maxRetries - retries) + c.maxAttempts == c.maxAttempts * (1 + c.maxRetries) by {
      assert c.maxAttempts * retries + c.maxAttempts * (c.maxRetries - retries) == c.maxAttempts * c.maxRetries;
    }
  }

  /** A run that loses no counted answer of `r` and makes `n` more counted attempts. */
  ghost predicate Spends(c: Config, s: State, actions: seq<Action>, r: RecipientId, n: nat) {
    && Valid(c, s, actions) && AnswersKept(Attempt, c, s, actions, r)
    && Attempts(Run(c, s, actions).log, r) == Attempts(s.log, r) + n
  }

  lemma Spend(c: Config, s: State, a: Action, rest: seq<Action>, r: RecipientId, n: nat)
    requires Enabled(c, s, a) && AnswerKept(Attempt, s, a, r) && Spends(c, Step(c, s, a), rest, r, n) && !a.Send?
    ensures Spends(c, s, [a] + rest, r, n)
  {
    assert ([a] + rest)[1..] == rest;
  }

  lemma SpendOne(c: Config, s: State, rest: seq<Action>, r: RecipientId, n: nat)
    requires Enabled(c, s, Send(Refused)) && s.tick.value.todo[0] == r && Spends(c, Step(c, s, Send(Refused)), rest, r, n)
    ensures Spends(c, s, [Send(Refused)] + rest, r, n + 1)
  {
    CountAppend(s.log, Entry(r, Refused), r, Attempt);
    assert ([Send(Refused)] + rest)[1..] == rest;
  }

  /** The four steps of a tick that sends to one recipient, and is refused. */
  function RefusedTick(s: State, r: RecipientId): seq<Action>
    requires r in s.doc.recipients && s.doc.recipients[r].job in s.doc.jobs
  {
    var x := s.doc.recipients[r];
    [StartTick(x.job, Latest(s.doc.jobs[x.job].notBefore, x.notBefore), [r]), Send(Refused), StoreOutcome(true), Finalize(false)]
  }

  predicate Sendable(s: State, r: RecipientId) {
    && s.tick.None? && r in s.doc.recipients && s.doc.recipients[r].status == Pending
    && s.doc.recipients[r].job in s.doc.jobs && s.doc.jobs[s.doc.recipients[r].job].status == Running
  }

  lemma RefusedStarts(c: Config, s: State, r: RecipientId)
    requires c.batchSize >= 1 && Sendable(s, r)
    ensures Enabled(c, s, RefusedTick(s, r)[0])
  {
    assert r in WithStatus(s.doc, s.doc.recipients[r].job, Pending);
  }

  lemma RefusedOnce(c: Config, s: State, r: RecipientId, rest: seq<Action>, n: nat)
    requires c.batchSize >= 1 && Sendable(s, r)
    requires Spends(c, AfterRefusal(c, s, r), rest, r, n)
    ensures var a := RefusedTick(s, r);
            Spends(c, s, [a[0]] + ([a[1]] + ([a[2]] + ([a[3]] + rest))), r, n + 1)
  {
    var a := RefusedTick(s, r);
    RefusedStarts(c, s, r);
    var s1 := Step(c, s, a[0]);
    var s2 := Step(c, s1, a[1]);
    var s3 := Step(c, s2, a[2]);
    assert Step(c, s3, a[3]) == AfterRefusal(c, s, r).(log := s2.log);
    assert s2.log == s.log + [Entry(r, Refused)];
    Spend(c, s3, a[3], rest, r, n);
    Spend(c, s2, a[2], [a[3]] + rest, r, n);
    SpendOne(c, s1, [a[2]] + ([a[3]] + rest), r, n);
    Spend(c, s, a[0], [a[1]] + ([a[2]] + ([a[3]] + rest)), r, n + 1);
  }

  function AfterRefusal(c: Config, s: State, r: RecipientId): State
    requires Sendable(s, r)
  {
    var x := s.doc.recipients[r];
    var now := Latest(s.doc.jobs[x.job].notBefore, x.notBefore);
    State(s.doc.(recipients := s.doc.recipients[r := Outcome(c, x, x, Refused, now)]), None, s.nextId,
          s.log + [Entry(r, Refused)])
  }

  lemma AfterRefusalKeeps(c: Config, s: State, r: RecipientId)
    requires c.batchSize >= 1 && Inv(c, s) && Sendable(s, r)
    ensures Inv(c, AfterRefusal(c, s, r))
  {
    var a := RefusedTick(s, r);
    RefusedStarts(c, s, r);
    StepKeeps(c, s, a[0]);
    var s1 := Step(c, s, a[0]);
    StepKeeps(c, s1, a[1]);
    var s2 := Step(c, s1, a[1]);
    StepKeeps(c, s2, a[2]);
    var s3 := Step(c, s2, a[2]);
    StepKeeps(c, s3, a[3]);
    assert Step(c, s3, a[3]) == AfterRefusal(c, s, r);
  }

  /** The job is cancelled if it runs, and its failures are retried. */
  function Requeued(s: State, j: JobId): State
    requires j in s.doc.jobs
  {
    s.(doc := RetryDoc(if s.doc.jobs[j].status == Running then CancelDoc(s.doc, j) else s.doc, j))
  }

  predicate Requeueable(c: Config, s: State, r: RecipientId) {
    && s.tick.None? && r in s.doc.recipients && s.doc.recipients[r].job in s.doc.jobs
    && s.doc.recipients[r].status == Failure && s.doc.jobs[s.doc.recipients[r].job].retryCount < c.maxRetries
  }

  lemma RequeuedSteps(c: Config, s: State, r: RecipientId)
    requires Requeueable(c, s, r)
    ensures var j := s.doc.recipients[r].job;
            var t := if s.doc.jobs[j].status == Running then Step(c, s, Cancel(j, true)) else s;
            && Enabled(c, t, Retry(j, true)) && Step(c, t, Retry(j, true)) == Requeued(s, j)
            && t.log == s.log && t.tick == s.tick
    ensures var j := s.doc.recipients[r].job;
            var x, y := s.doc.recipients[r], Requeued(s, j).doc;
            && r in y.recipients && y.recipients[r] == Requeue(x) && j in y.jobs && y.jobs[j].status == Running
            && y.jobs[j].retryCount == s.doc.jobs[j].retryCount + 1
  {
    var j := s.doc.recipients[r].job;
    var t := if s.doc.jobs[j].status == Running then Step(c, s, Cancel(j, true)) else s;
    assert r in WithStatus(t.doc, j, Failure);
  }

  lemma RequeuedKeeps(c: Config, s: State, r: RecipientId)
    requires Inv(c, s) && Requeueable(c, s, r)
    ensures Inv(c, Requeued(s, s.doc.recipients[r].job))
  {
    var j := s.doc.recipients[r].job;
    RequeuedSteps(c, s, r);
    if s.doc.jobs[j].status == Running {
      StepKeeps(c, s, Cancel(j, true));
      StepKeeps(c, Step(c, s, Cancel(j, true)), Retry(j, true));
    } else {
      StepKeeps(c, s, Retry(j, true));
    }
  }

  lemma RequeuedSpends(c: Config, s: State, r: RecipientId, rest: seq<Action>, n: nat) returns (actions: seq<Action>)
    requires Requeueable(c, s, r) && Spends(c, Requeued(s, s.doc.recipients[r].job), rest, r, n)
    ensures Spends(c, s, actions, r, n)
  {
    var j := s.doc.recipients[r].job;
    RequeuedSteps(c, s, r);
    var t := if s.doc.jobs[j].status == Running then Step(c, s, Cancel(j, true)) else s;
    Spend(c, t, Retry(j, true), rest, r, n);
    actions := [Retry(j, true)] + rest;
    if s.doc.jobs[j].status == Running {
      Spend(c, s, Cancel(j, true), actions, r, n);
      actions := [Cancel(j, true)] + actions;
    }
  }

  lemma RemainingRequeued(c: Config, s: State, r: RecipientId)
    requires Inv(c, s) && Requeueable(c, s, r)
    ensures RecipientOk(c, s.doc.jobs, s.doc.recipients[r]) && JobOk(c, s.doc, s.doc.recipients[r].job)
    ensures var u := Requeued(s, s.doc.recipients[r].job);
            && r in u.doc.recipients && RecipientOk(c, u.doc.jobs, u.doc.recipients[r])
            && JobOk(c, u.doc, u.doc.recipients[r].job) && Remaining(c, u.doc, r) == Remaining(c, s.doc, r)
  {
    var j := s.doc.recipients[r].job;
    RequeuedSteps(c, s, r);
    RequeuedKeeps(c, s, r);
    StoredOk(c, s, r);
    StoredOk(c, Requeued(s, j), r);
    LeftRequeued(c, s.doc.recipients[r], s.doc.jobs[j].retryCount);
  }

  lemma RemainingRefused(c: Config, s: State, r: RecipientId)
    requires c.batchSize >= 1 && Inv(c, s) && Sendable(s, r)
    ensures RecipientOk(c, s.doc.jobs, s.doc.recipients[r]) && JobOk(c, s.doc, s.doc.recipients[r].job)
    ensures var u := AfterRefusal(c, s, r);
            && RecipientOk(c, u.doc.jobs, u.doc.recipients[r]) && JobOk(c, u.doc, u.doc.recipients[r].job)
            && Remaining(c, s.doc, r) == Remaining(c, u.doc, r) + 1
  {
    AfterRefusalKeeps(c, s, r);
    StoredOk(c, s, r);
    StoredOk(c, AfterRefusal(c, s, r), r);
    var x := s.doc.recipients[r];
    var job := s.doc.jobs[x.job];
    LeftRefused(c, x, job.retryCount, Latest(job.notBefore, x.notBefore));
  }

  /** Between two ticks: refused until FAILED, requeued, and so on until no retry is left. */
  lemma {:induction false} SpendAll(c: Config, s: State, r: RecipientId) returns (actions: seq<Action>)
    requires Inv(c, s) && s.tick.None? && c.batchSize >= 1 && r in s.doc.recipients
    requires RecipientOk(c, s.doc.jobs, s.doc.recipients[r]) && JobOk(c, s.doc, s.doc.recipients[r].job)
    requires s.doc.recipients[r].status == Pending ==> s.doc.jobs[s.doc.recipients[r].job].status == Running
    ensures Spends(c, s, actions, r, Remaining(c, s.doc, r))
    decreases c.maxRetries - s.doc.jobs[s.doc.recipients[r].job].retryCount,
              if s.doc.recipients[r].status == Pending then c.maxAttempts - s.doc.recipients[r].attempts else 0
  {
    if s.doc.recipients[r].status == Pending {
      RemainingRefused(c, s, r);
      AfterRefusalKeeps(c, s, r);
      var u := AfterRefusal(c, s, r);
      var rest := SpendAll(c, u, r);
      RefusedOnce(c, s, r, rest, Remaining(c, u.doc, r));
      var a := RefusedTick(s, r);
      actions := [a[0]] + ([a[1]] + ([a[2]] + ([a[3]] + rest)));
    } else if Requeueable(c, s, r) {
      RemainingRequeued(c, s, r);
      RequeuedKeeps(c, s, r);
      RequeuedSteps(c, s, r);
      var rest := SpendAll(c, Requeued(s, s.doc.recipients[r].job), r);
      actions := RequeuedSpends(c, s, r, rest, Remaining(c, s.doc, r));
    } else {
      actions := [];
      NoneLeft(c);
    }
  }

  lemma NoneLeft(c: Config)
    ensures Base(c, 0) == 0
  {
  }

  lemma NoMoreThan(c: Config, s: State, actions: seq<Action>, r: RecipientId)
    requires Inv(c, s) && s.tick.None? && r in s.doc.recipients && Valid(c, s, actions)
    requires AnswersKept(Attempt, c, s, actions, r)
    requires RecipientOk(c, s.doc.jobs, s.doc.recipients[r]) && JobOk(c, s.doc, s.doc.recipients[r].job)
    ensures Attempts(Run(c, s, actions).log, r) <= Attempts(s.log, r) + Remaining(c, s.doc, r)
  {
    var x := s.doc.recipients[r];
    if x.status == Pending || x.status == Failure {
      var k := s.doc.jobs[x.job].retryCount;
      AheadLeaves(c, x, k, Attempts(s.log, r));
      AttemptsAllowed(c, s, actions, r, Ahead(c, x, k, Attempts(s.log, r)));
    } else {
      SpentForever(c, s, actions, r);
    }
  }

  /**
   * The bound is exact at every moment between two ticks: some run that loses no counted answer makes more than `n`
   * counted attempts in all if and only if those made, and what the record and the retries left allow, are more.
   */
  lemma AttemptsExactly(c: Config, s: State, r: RecipientId, n: nat)
    requires Inv(c, s) && s.tick.None? && c.batchSize >= 1 && r in s.doc.recipients
    ensures RecipientOk(c, s.doc.jobs, s.doc.recipients[r]) && JobOk(c, s.doc, s.doc.recipients[r].job)
    ensures (exists actions :: Exceeds(c, s, actions, r, n)) <==> Attempts(s.log, r) + Remaining(c, s.doc, r) > n
  {
    var x := s.doc.recipients[r];
    assert RecipientOk(c, s.doc.jobs, x) && JobOk(c, s.doc, x.job);
    if Attempts(s.log, r) + Remaining(c, s.doc, r) > n {
      var actions: seq<Action>;
      if s.doc.jobs[x.job].status == Prepared {
        StepKeeps(c, s, Confirm(x.job, true));
        var rest := SpendAll(c, Step(c, s, Confirm(x.job, true)), r);
        Spend(c, s, Confirm(x.job, true), rest, r, Remaining(c, s.doc, r));
        actions := [Confirm(x.job, true)] + rest;
      } else {
        actions := SpendAll(c, s, r);
      }
      assert Exceeds(c, s, actions, r, n);
    } else {
      forall actions | Valid(c, s, actions) && AnswersKept(Attempt, c, s, actions, r) ensures !Exceeds(c, s, actions, r, n) {
        NoMoreThan(c, s, actions, r);
      }
    }
  }

  ghost predicate Exceeds(c: Config, s: State, actions: seq<Action>, r: RecipientId, n: nat) {
    Valid(c, s, actions) && AnswersKept(Attempt, c, s, actions, r) && Attempts(Run(c, s, actions).log, r) > n
  }

  // --- runs from the start ------------------------------------------------------------------------------

  lemma {:induction false} Join(c: Config, s: State, first: seq<Action>, rest: seq<Action>)
    requires Valid(c, s, first) && Valid(c, Run(c, s, first), rest)
    ensures Valid(c, s, first + rest) && Run(c, s, first + rest) == Run(c, Run(c, s, first), rest)
    decreases |first|
  {
    if first == [] {
      assert first + rest == rest;
    } else {
      Join(c, Step(c, s, first[0]), first[1..], rest);
      assert (first + rest)[1..] == first[1..] + rest && (first + rest)[0] == first[0];
    }
  }

  /** A confirmed job for one person. */
  function Confirmed(): seq<Action> {
    [Prepare(0, map[1 := "one"], 2, true)] + ([Confirm(0, true)] + [])
  }

  function ConfirmedState(): State {
    State(Document(map[0 := Job(Running, 0, 1, 0, None)], map[1 := Recipient(0, "one", Pending, 0, None)]), None, 2, [])
  }

  lemma ConfirmedIs(c: Config)
    requires c.maxAttempts >= 1
    ensures Valid(c, Start(), Confirmed()) && Run(c, Start(), Confirmed()) == ConfirmedState()
    ensures Inv(c, ConfirmedState())
  {
    var prepare := Prepare(0, map[1 := "one"], 2, true);
    assert 1 in prepare.audience && |prepare.audience| == 1;
    assert Enabled(c, Start(), prepare);
    var s1 := Step(c, Start(), prepare);
    assert s1.doc.jobs == map[0 := Job(Prepared, 0, 1, 0, None)];
    assert s1.doc.recipients == map[1 := Recipient(0, "one", Pending, 0, None)];
    var s2 := Step(c, s1, Confirm(0, true));
    assert s2.doc.jobs == map[0 := Job(Running, 0, 1, 0, None)];
    OneMore(c, s1, Confirm(0, true), [], 1);
    OneMore(c, Start(), prepare, [Confirm(0, true)] + [], 1);
    RunKeeps(c, Start(), Confirmed());
  }

  /** One send whose answer is dropped, by a failed write or a restart: nothing is stored, the call is made. */
  function Dropped(r: RecipientId, j: JobId, now: int, answer: Answer, restart: bool): seq<Action> {
    [StartTick(j, now, [r])] + ([Send(answer)] +
    ([if restart then Restart else StoreOutcome(false)] + ([if restart then Restart else Finalize(false)] + [])))
  }

  lemma DroppedIs(c: Config, s: State, answer: Answer, restart: bool)
    requires c.batchSize >= 1 && s.doc == ConfirmedState().doc && s.tick.None? && (restart || answer != RateLimited)
    ensures var actions := Dropped(1, 0, 0, answer, restart);
            Valid(c, s, actions) && Run(c, s, actions) == s.(log := s.log + [Entry(1, answer)])
  {
    var start, send := StartTick(0, 0, [1]), Send(answer);
    var drop, end := if restart then Restart else StoreOutcome(false), if restart then Restart else Finalize(false);
    assert 1 in WithStatus(s.doc, 0, Pending);
    var s1 := Step(c, s, start);
    var s2 := Step(c, s1, send);
    var s3 := Step(c, s2, drop);
    var s4 := Step(c, s3, end);
    assert s4 == s.(log := s.log + [Entry(1, answer)]);
    Front(c, s3, end, []);
    Front(c, s2, drop, [end] + []);
    Front(c, s1, send, [drop] + ([end] + []));
    Front(c, s, start, [send] + ([drop] + ([end] + [])));
  }

  /** A swallowed outcome write, or a restart between a send and its outcome: two accepted messages. */
  lemma AcceptedTwice(c: Config, restart: bool) returns (again: seq<Action>)
    requires c.maxAttempts >= 1 && c.batchSize >= 1
    ensures var actions := Confirmed() + (Dropped(1, 0, 0, Accepted, restart) + again);
            Valid(c, Start(), actions) && AcceptedSends(Run(c, Start(), actions).log, 1) == 2
  {
    ConfirmedIs(c);
    var s := ConfirmedState();
    var once := Dropped(1, 0, 0, Accepted, restart);
    DroppedIs(c, s, Accepted, restart);
    CountAppend([], Entry(1, Accepted), 1, Acceptance);
    assert [] + [Entry(1, Accepted)] == [Entry(1, Accepted)];
    again := RunningIsSent(c, s.(log := s.log + [Entry(1, Accepted)]), 1);
    Join(c, s, once, again);
    Join(c, Start(), Confirmed(), once + again);
  }

  /** The second bound needs its condition too: dropped refusals can be repeated any number of times. */
  lemma {:induction false} AttemptsUnbounded(c: Config, restart: bool, n: nat) returns (actions: seq<Action>)
    requires c.maxAttempts >= 1 && c.batchSize >= 1
    ensures Valid(c, Start(), actions) && Attempts(Run(c, Start(), actions).log, 1) == n
    ensures Run(c, Start(), actions).doc == ConfirmedState().doc && Run(c, Start(), actions).tick.None?
  {
    if n == 0 {
      ConfirmedIs(c);
      actions := Confirmed();
    } else {
      var before := AttemptsUnbounded(c, restart, n - 1);
      var s := Run(c, Start(), before);
      DroppedIs(c, s, Refused, restart);
      CountAppend(s.log, Entry(1, Refused), 1, Attempt);
      Join(c, Start(), before, Dropped(1, 0, 0, Refused, restart));
      actions := before + Dropped(1, 0, 0, Refused, restart);
    }
  }

  // --- draining ---------------------------------------------------------------------------------------

  function Weight(c: Config, doc: Document, r: RecipientId): nat {
    if r in doc.recipients && doc.recipients[r].status == Pending && doc.recipients[r].attempts <= c.maxAttempts
    then c.maxAttempts - doc.recipients[r].attempts else 0
  }

  /** The attempts the pending recipients still have, summed over all ids below `n`. */
  function Work(c: Config, doc: Document, n: nat): nat {
    if n == 0 then 0 else Work(c, doc, n - 1) + Weight(c, doc, n - 1)
  }

  lemma {:induction false} WorkFrame(c: Config, a: Document, b: Document, n: nat)
    requires forall r: RecipientId :: r < n ==> Weight(c, b, r) <= Weight(c, a, r)
    ensures Work(c, b, n) <= Work(c, a, n)
  {
    if n > 0 {
      WorkFrame(c, a, b, n - 1);
    }
  }

  lemma {:induction false} WorkDrops(c: Config, a: Document, b: Document, n: nat, x: RecipientId)
    requires x < n && Weight(c, b, x) < Weight(c, a, x)
    requires forall r: RecipientId :: r < n ==> Weight(c, b, r) <= Weight(c, a, r)
    ensures Work(c, b, n) < Work(c, a, n)
  {
    if x < n - 1 {
      WorkDrops(c, a, b, n - 1, x);
    } else {
      WorkFrame(c, a, b, n - 1);
    }
  }

  /** The action stores the outcome of a pending recipient that was not rate-limited. */
  predicate Processes(s: State, a: Action) {
    && a.StoreOutcome? && a.ok && s.tick.Some? && s.tick.value.held.Some? && s.tick.value.todo != []
    && Counted(s.tick.value.held.value)
    && s.tick.value.todo[0] in s.doc.recipients && s.doc.recipients[s.tick.value.todo[0]].status == Pending
  }

  predicate Drains(a: Action) {
    !a.Prepare? && !a.Retry?
  }

  lemma WorkStep(c: Config, s: State, a: Action)
    requires Inv(c, s) && Enabled(c, s, a) && Drains(a)
    ensures Work(c, Step(c, s, a).doc, s.nextId) + One(Processes(s, a)) <= Work(c, s.doc, s.nextId)
    ensures Step(c, s, a).nextId == s.nextId
  {
    var t := Step(c, s, a);
    if a.StoreOutcome? {
      var first := s.tick.value.todo[0];
      assert MemberOk(s.doc, s.tick.value, first);
      assert RecipientOk(c, s.doc.jobs, s.doc.recipients[first]);
      if Processes(s, a) {
        WorkDrops(c, s.doc, t.doc, s.nextId, first);
      } else {
        WorkFrame(c, s.doc, t.doc, s.nextId);
      }
    } else {
      WorkFrame(c, s.doc, t.doc, s.nextId);
    }
  }

  ghost function Processed(c: Config, s: State, actions: seq<Action>): nat
    requires Valid(c, s, actions)
    decreases |actions|
  {
    if actions == [] then 0
    else One(Processes(s, actions[0])) + Processed(c, Step(c, s, actions[0]), actions[1..])
  }

  /** Draining ends: without new jobs or retries only as many outcomes can be stored as attempts are left. */
  lemma {:induction false} DrainingEnds(c: Config, s: State, actions: seq<Action>)
    requires Inv(c, s) && Valid(c, s, actions) && forall i :: 0 <= i < |actions| ==> Drains(actions[i])
    ensures Processed(c, s, actions) + Work(c, Run(c, s, actions).doc, s.nextId) <= Work(c, s.doc, s.nextId)
    decreases |actions|
  {
    if actions != [] {
      assert forall i :: 0 <= i < |actions[1..]| ==> actions[1..][i] == actions[i + 1];
      StepKeeps(c, s, actions[0]);
      WorkStep(c, s, actions[0]);
      DrainingEnds(c, Step(c, s, actions[0]), actions[1..]);
    }
  }
}
