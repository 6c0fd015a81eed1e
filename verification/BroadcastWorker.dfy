/** The broadcast service as the class it is: commands with error replies, and the worker's batch loop. */
module BroadcastWorker {
  import opened Common
  import opened BroadcastModel
  import opened Texts

  datatype Reply<+T> = Done(value: T) | NotFound | Conflict | LimitExceeded | InvalidInput | PersistenceFailed

  /** One row of the user document: `eligible` is the outcome of the audience, opt-out and chat rules. */
  datatype User = User(identity: Identity, eligible: bool)

  datatype SendOutcome = SentNow | FailedNow | RetryScheduled | UnknownNow | RateLimitedNow

  datatype TickResult = TickResult(processed: nat, sent: nat, failed: nat, retryScheduled: nat, unknown: nat,
                                   rateLimited: bool, completed: Option<JobId>)

  /** A RUNNING job with nothing pending. */
  ghost predicate Closable(doc: Document, j: JobId) {
    j in doc.jobs && doc.jobs[j].status == Running &&
    forall r :: r in doc.recipients && doc.recipients[r].job == j ==> doc.recipients[r].status != Pending
  }

  lemma NonePending(doc: Document, j: JobId)
    ensures |WithStatus(doc, j, Pending)| == 0 <==>
            forall r :: r in doc.recipients && doc.recipients[r].job == j ==> doc.recipients[r].status != Pending
  {
    if |WithStatus(doc, j, Pending)| == 0 {
      forall r | r in doc.recipients && doc.recipients[r].job == j ensures doc.recipients[r].status != Pending {
        assert r !in WithStatus(doc, j, Pending);
      }
    } else {
      var r :| r in WithStatus(doc, j, Pending);
    }
  }

  /** What a PENDING recipient becomes after one send: its status, its attempts and when it is due again. */
  ghost predicate Records(c: Config, was: Recipient, now: Recipient, read: Recipient, answer: Answer, at: int) {
    && now.job == was.job && now.identity == was.identity
    && match answer
       case Accepted => now.status == Sent && now.attempts == read.attempts + 1 && now.notBefore == was.notBefore
       case NoAnswer => now.status == Unknown && now.attempts == read.attempts + 1 && now.notBefore == was.notBefore
       case NoAdapter => now.status == Failure && now.attempts == read.attempts + 1 && now.notBefore == was.notBefore
       case RateLimited => now.status == Pending && now.attempts == read.attempts && now.notBefore == Some(at + c.backoff)
       case Refused =>
         && now.attempts == read.attempts + 1
         && if read.attempts + 1 >= c.maxAttempts then now.status == Failure && now.notBefore == was.notBefore
            else now.status == Pending && now.notBefore == Some(at + c.backoff)
  }

  function Count(result: TickResult, outcome: SendOutcome): TickResult {
    var counted := result.(processed := result.processed + 1);
    match outcome
    case SentNow => counted.(sent := result.sent + 1)
    case FailedNow => counted.(failed := result.failed + 1)
    case RetryScheduled => counted.(retryScheduled := result.retryScheduled + 1)
    case UnknownNow => counted.(unknown := result.unknown + 1)
    case RateLimitedNow => counted.(rateLimited := true)
  }

  predicate AddsUp(result: TickResult) {
    result.processed == result.sent + result.failed + result.retryScheduled + result.unknown
                        + if result.rateLimited then 1 else 0
  }

  function AnswersOf(log: seq<Entry>, a: Answer): nat {
    if log == [] then 0 else AnswersOf(log[..|log| - 1], a) + if log[|log| - 1].answer == a then 1 else 0
  }

  lemma AnswersAppend(log: seq<Entry>, e: Entry)
    ensures forall a :: AnswersOf(log + [e], a) == AnswersOf(log, a) + if e.answer == a then 1 else 0
  {
    assert (log + [e])[..|log|] == log;
  }

  /** The counters of a tick count the answers it got. */
  ghost predicate CountsAnswers(result: TickResult, log: seq<Entry>) {
    && result.sent == AnswersOf(log, Accepted) && result.unknown == AnswersOf(log, NoAnswer)
    && result.failed + result.retryScheduled == AnswersOf(log, Refused) + AnswersOf(log, NoAdapter)
    && (if result.rateLimited then 1 else 0) == AnswersOf(log, RateLimited)
  }

  lemma CountedMore(result: TickResult, outcome: SendOutcome, log: seq<Entry>, e: Entry)
    requires AddsUp(result) && CountsAnswers(result, log) && !result.rateLimited
    requires outcome == RateLimitedNow <==> e.answer == RateLimited
    requires outcome == SentNow <==> e.answer == Accepted
    requires outcome == UnknownNow <==> e.answer == NoAnswer
    ensures AddsUp(Count(result, outcome)) && CountsAnswers(Count(result, outcome), log + [e])
  {
    AnswersAppend(log, e);
  }

  // --- audience ------------------------------------------------------------------------------------------------

  function Identities(users: seq<User>): set<Identity> {
    set k | 0 <= k < |users| :: users[k].identity
  }

  /** Only the first row of an identity is looked at. */
  function Audience(users: seq<User>): seq<Identity> {
    if users == [] then []
    else
      var before, last := users[..|users| - 1], users[|users| - 1];
      if last.eligible && last.identity !in Identities(before) then Audience(before) + [last.identity]
      else Audience(before)
  }

  /** An identity is enlisted exactly when its first row is eligible, and nobody is enlisted twice. */
  lemma {:induction false} AudienceExact(users: seq<User>)
    ensures forall i, k :: 0 <= i < k < |Audience(users)| ==> Audience(users)[i] != Audience(users)[k]
    ensures forall id :: id in Audience(users) <==>
              exists k :: 0 <= k < |users| && users[k] == User(id, true) && id !in Identities(users[..k])
  {
    if users != [] {
      var n := |users| - 1;
      var before := users[..n];
      AudienceExact(before);
      forall id ensures id in Audience(users) <==>
                          exists k :: 0 <= k < |users| && users[k] == User(id, true) && id !in Identities(users[..k])
      {
        if id in Audience(before) {
          var k :| 0 <= k < n && before[k] == User(id, true) && id !in Identities(before[..k]);
          assert before[..k] == users[..k] && users[k] == User(id, true);
        }
        if k :| 0 <= k < |users| && users[k] == User(id, true) && id !in Identities(users[..k]) {
          if k < n {
            assert before[..k] == users[..k] && before[k] == User(id, true);
          }
        }
      }
      forall i | 0 <= i < |Audience(before)| ensures Audience(before)[i] in Identities(before) {
        var id := Audience(before)[i];
        assert id in Audience(before);
        var k :| 0 <= k < n && before[k] == User(id, true) && id !in Identities(before[..k]);
      }
    }
  }

  // Recipients are sorted by identity before ids are handed out.

  function Insert(id: Identity, ids: seq<Identity>): seq<Identity> {
    if ids == [] then [id] else if NotAfter(id, ids[0]) then [id] + ids else [ids[0]] + Insert(id, ids[1..])
  }

  function SortedByIdentity(ids: seq<Identity>): seq<Identity> {
    if ids == [] then [] else Insert(ids[0], SortedByIdentity(ids[1..]))
  }

  ghost predicate Ascending(ids: seq<Identity>) {
    forall i, k :: 0 <= i < k < |ids| ==> NotAfter(ids[i], ids[k]) && ids[i] != ids[k]
  }

  lemma {:induction false} InsertAscends(id: Identity, ids: seq<Identity>)
    requires Ascending(ids) && id !in ids
    ensures forall x :: x in Insert(id, ids) <==> x == id || x in ids
    ensures Ascending(Insert(id, ids)) && |Insert(id, ids)| == |ids| + 1
  {
    if ids != [] {
      assert ids == [ids[0]] + ids[1..];
      if NotAfter(id, ids[0]) {
        forall k | 0 <= k < |ids| ensures NotAfter(id, ids[k]) && id != ids[k] {
          if k > 0 { Transitive(id, ids[0], ids[k]); }
        }
      } else {
        Total(id, ids[0]);
        InsertAscends(id, ids[1..]);
        var rest := Insert(id, ids[1..]);
        forall k | 0 <= k < |rest| ensures NotAfter(ids[0], rest[k]) && ids[0] != rest[k] {
          assert rest[k] in rest;
        }
      }
    }
  }

  lemma {:induction false} SortingAscends(ids: seq<Identity>)
    requires forall i, k :: 0 <= i < k < |ids| ==> ids[i] != ids[k]
    ensures forall x :: x in SortedByIdentity(ids) <==> x in ids
    ensures Ascending(SortedByIdentity(ids)) && |SortedByIdentity(ids)| == |ids|
  {
    if ids != [] {
      SortingAscends(ids[1..]);
      assert ids == [ids[0]] + ids[1..];
      InsertAscends(ids[0], SortedByIdentity(ids[1..]));
    }
  }

  /** What the preview lists and a confirmed job is sent to. */
  function Preview(users: seq<User>): seq<Identity> {
    SortedByIdentity(Audience(users))
  }

  /** The preview is strictly ascending, and lists exactly the identities whose first row is eligible. */
  lemma PreviewExact(users: seq<User>)
    ensures Ascending(Preview(users)) && |Preview(users)| == |Audience(users)|
    ensures forall id :: id in Preview(users) <==>
              exists k :: 0 <= k < |users| && users[k] == User(id, true) && id !in Identities(users[..k])
  {
    AudienceExact(users);
    SortingAscends(Audience(users));
  }

  method ResolveAudience(users: seq<User>) returns (recipients: seq<Identity>)
    ensures recipients == Preview(users)
  {
    recipients := [];
    var seen: set<Identity> := {};
    var n := 0;
    while n < |users|
      invariant 0 <= n <= |users|
      invariant seen == Identities(users[..n]) && recipients == Audience(users[..n])
    {
      var user := users[n];
      assert users[..n + 1][..n] == users[..n];
      SeenGrows(users, n);
      if user.identity !in seen {
        seen := seen + {user.identity};
        if user.eligible {
          recipients := recipients + [user.identity];
        }
      }
      n := n + 1;
    }
    assert users[..n] == users;
    recipients := SortedByIdentity(recipients);
  }

  lemma SeenGrows(users: seq<User>, n: nat)
    requires n < |users|
    ensures Identities(users[..n + 1]) == Identities(users[..n]) + {users[n].identity}
  {
    forall id | id in Identities(users[..n]) + {users[n].identity} ensures id in Identities(users[..n + 1]) {
      if id == users[n].identity {
        assert users[..n + 1][n].identity == id;
      } else {
        var k :| 0 <= k < n && users[..n][k].identity == id;
        assert users[..n + 1][k].identity == id;
      }
    }
    forall id | id in Identities(users[..n + 1]) ensures id in Identities(users[..n]) + {users[n].identity} {
      var k :| 0 <= k < n + 1 && users[..n + 1][k].identity == id;
      if k < n {
        assert users[..n][k].identity == id;
      }
    }
  }

  /** The audience with its recipient ids, handed out one after the other from `first` on. */
  function Numbered(ids: seq<Identity>, first: nat): map<RecipientId, Identity> {
    if ids == [] then map[] else Numbered(ids[..|ids| - 1], first)[first + |ids| - 1 := ids[|ids| - 1]]
  }

  lemma {:induction false} NumberedSize(ids: seq<Identity>, first: nat)
    ensures |Numbered(ids, first)| == |ids|
    decreases |ids|
  {
    if ids != [] {
      NumberedSize(ids[..|ids| - 1], first);
      NumberedAt(ids[..|ids| - 1], first, first + |ids| - 1);
    }
  }

  lemma {:induction false} NumberedAt(ids: seq<Identity>, first: nat, r: RecipientId)
    ensures r in Numbered(ids, first) <==> first <= r < first + |ids|
    ensures r in Numbered(ids, first) ==> Numbered(ids, first)[r] == ids[r - first]
    decreases |ids|
  {
    if ids != [] {
      NumberedAt(ids[..|ids| - 1], first, r);
    }
  }

  /** The machine's condition on an audience: nobody is in it twice. */
  lemma NumberedDistinct(users: seq<User>, first: nat)
    ensures DistinctIdentities(Numbered(Preview(users), first))
  {
    var audience := Numbered(Preview(users), first);
    PreviewExact(users);
    forall a, b | a in audience && b in audience && audience[a] == audience[b] ensures a == b {
      NumberedAt(Preview(users), first, a);
      NumberedAt(Preview(users), first, b);
    }
  }

  function Enlisted(rows: map<RecipientId, Recipient>, j: JobId, ids: seq<Identity>): map<RecipientId, Recipient> {
    if ids == [] then rows
    else Enlisted(rows, j, ids[..|ids| - 1])[j + |ids| := Recipient(j, ids[|ids| - 1], Pending, 0, None)]
  }

  lemma {:induction false} EnlistedAt(rows: map<RecipientId, Recipient>, j: JobId, ids: seq<Identity>, r: RecipientId)
    ensures r in Enlisted(rows, j, ids) <==> r in rows || j < r <= j + |ids|
    ensures r in Enlisted(rows, j, ids) ==>
              Enlisted(rows, j, ids)[r] == if j < r <= j + |ids| then Recipient(j, ids[r - j - 1], Pending, 0, None) else rows[r]
    decreases |ids|
  {
    if ids != [] {
      EnlistedAt(rows, j, ids[..|ids| - 1], r);
    }
  }

  /** Saving recipient after recipient makes the document that one transaction is specified to make. */
  lemma EnlistedIs(doc: Document, j: JobId, at: int, ids: seq<Identity>)
    ensures PrepareDoc(doc, j, at, Numbered(ids, j + 1)).recipients == Enlisted(doc.recipients, j, ids)
  {
    var audience := Numbered(ids, j + 1);
    var prepared, enlisted := PrepareDoc(doc, j, at, audience).recipients, Enlisted(doc.recipients, j, ids);
    forall r ensures r in prepared <==> r in enlisted
             ensures r in prepared ==> prepared[r] == enlisted[r]
    {
      EnlistedOne(doc, j, at, ids, r);
    }
  }

  lemma EnlistedOne(doc: Document, j: JobId, at: int, ids: seq<Identity>, r: RecipientId)
    ensures var prepared, enlisted := PrepareDoc(doc, j, at, Numbered(ids, j + 1)).recipients, Enlisted(doc.recipients, j, ids);
            (r in prepared <==> r in enlisted) && (r in prepared ==> prepared[r] == enlisted[r])
  {
    NumberedAt(ids, j + 1, r);
    EnlistedAt(doc.recipients, j, ids, r);
    PreparedAt(doc, j, at, Numbered(ids, j + 1), r);
  }

  lemma PreparedAt(doc: Document, j: JobId, at: int, audience: map<RecipientId, Identity>, r: RecipientId)
    ensures var prepared := PrepareDoc(doc, j, at, audience).recipients;
            && (r in prepared <==> r in doc.recipients || r in audience)
            && (r in prepared ==>
                  prepared[r] == if r in audience then Recipient(j, audience[r], Pending, 0, None) else doc.recipients[r])
  {
  }

  /** One PENDING recipient for each identity, in order, under the ids after that of the job. */
  ghost predicate EnlistsAll(was: map<RecipientId, Recipient>, now: map<RecipientId, Recipient>, j: JobId, ids: seq<Identity>) {
    forall r: RecipientId ::
      && (r in now <==> r in was || j < r <= j + |ids|)
      && (r in now ==> now[r] == if j < r <= j + |ids| then Recipient(j, ids[r - j - 1], Pending, 0, None) else was[r])
  }

  lemma EnlistedAll(rows: map<RecipientId, Recipient>, j: JobId, ids: seq<Identity>)
    ensures EnlistsAll(rows, Enlisted(rows, j, ids), j, ids)
  {
    forall r: RecipientId
      ensures r in Enlisted(rows, j, ids) <==> r in rows || j < r <= j + |ids|
      ensures r in Enlisted(rows, j, ids) ==>
                Enlisted(rows, j, ids)[r] == if j < r <= j + |ids| then Recipient(j, ids[r - j - 1], Pending, 0, None) else rows[r]
    {
      EnlistedAt(rows, j, ids, r);
    }
  }

  function Opened(doc: Document, j: JobId, at: int, ids: seq<Identity>): Document {
    Document(doc.jobs[j := Job(Prepared, at, |ids|, 0, None)], Enlisted(doc.recipients, j, ids))
  }

  lemma OpenedIs(doc: Document, j: JobId, at: int, ids: seq<Identity>)
    ensures Opened(doc, j, at, ids) == PrepareDoc(doc, j, at, Numbered(ids, j + 1))
  {
    EnlistedIs(doc, j, at, ids);
    NumberedSize(ids, j + 1);
  }

  method Enlist(rows: map<RecipientId, Recipient>, j: JobId, ids: seq<Identity>) returns (draft: map<RecipientId, Recipient>)
    ensures draft == Enlisted(rows, j, ids)
  {
    draft := rows;
    var n := 0;
    while n < |ids|
      invariant 0 <= n <= |ids|
      invariant draft == Enlisted(rows, j, ids[..n])
    {
      assert ids[..n + 1][..n] == ids[..n];
      draft := draft[j + 1 + n := Recipient(j, ids[n], Pending, 0, None)];
      n := n + 1;
    }
    assert ids[..n] == ids;
  }

  // --- traces ----------------------------------------------------------------------------------------------------

  lemma {:induction false} Extend(c: Config, s: State, actions: seq<Action>, a: Action)
    requires Valid(c, s, actions) && Enabled(c, Run(c, s, actions), a)
    ensures Valid(c, s, actions + [a])
    ensures Run(c, s, actions + [a]) == Step(c, Run(c, s, actions), a)
    decreases |actions|
  {
    if actions == [] {
      assert (actions + [a])[1..] == [];
      assert Valid(c, Step(c, s, a), []) && Run(c, Step(c, s, a), []) == Step(c, s, a);
    } else {
      Extend(c, Step(c, s, actions[0]), actions[1..], a);
      assert (actions + [a])[1..] == actions[1..] + [a];
    }
  }

  /** One send and the write of its outcome. */
  lemma SendAndStore(c: Config, s: State, actions: seq<Action>, answer: Answer, ok: bool)
    requires Valid(c, s, actions) && Run(c, s, actions).tick.Some?
    requires var t := Run(c, s, actions).tick.value;
             t.held.None? && !t.stopped && t.todo != [] && t.todo[0] in t.read
    ensures Valid(c, s, actions + [Action.Send(answer), Action.StoreOutcome(ok)])
    ensures var was := Run(c, s, actions);
            var t := was.tick.value;
            Run(c, s, actions + [Action.Send(answer), Action.StoreOutcome(ok)]) ==
            State(if ok then StoreDoc(c, was.doc, t.todo[0], t.read[t.todo[0]], answer, t.now) else was.doc,
                  Some(t.(todo := t.todo[1..], held := None, stopped := answer == RateLimited)),
                  was.nextId, was.log + [Entry(t.todo[0], answer)])
  {
    Extend(c, s, actions, Action.Send(answer));
    Extend(c, s, actions + [Action.Send(answer)], Action.StoreOutcome(ok));
    assert actions + [Action.Send(answer)] + [Action.StoreOutcome(ok)] ==
           actions + [Action.Send(answer), Action.StoreOutcome(ok)];
  }

  lemma CloseTick(c: Config, s: State, actions: seq<Action>, ok: bool)
    requires Valid(c, s, actions) && Run(c, s, actions).tick.Some?
    requires var t := Run(c, s, actions).tick.value; t.held.None? && (t.stopped || t.todo == [])
    ensures var was := Run(c, s, actions);
            var t := was.tick.value;
            var last := if t.stopped then Action.BackOff(ok) else Action.Finalize(ok);
            && Valid(c, s, actions + [last])
            && Run(c, s, actions + [last]) ==
               State(if !ok then was.doc else if t.stopped then BackOffDoc(c, was.doc, t.job, t.now)
                     else FinalizeDoc(was.doc, t.job), None, was.nextId, was.log)
  {
    var last := if Run(c, s, actions).tick.value.stopped then Action.BackOff(ok) else Action.Finalize(ok);
    Extend(c, s, actions, last);
  }

  predicate DuePending(recipients: map<RecipientId, Recipient>, j: JobId, now: int, r: RecipientId) {
    && r in recipients && recipients[r].job == j && recipients[r].status == Pending
    && Due(recipients[r].notBefore, now)
  }

  predicate Runnable(jobs: map<JobId, Job>, now: int, j: JobId) {
    j in jobs && jobs[j].status == Running && Due(jobs[j].notBefore, now)
  }

  lemma CountOne(doc: Document, j: JobId, status: RecipientStatus, rest: set<RecipientId>, r: RecipientId)
    requires r in rest
    ensures |WithStatus(doc, j, status) - (rest - {r})| ==
            |WithStatus(doc, j, status) - rest| + if r in WithStatus(doc, j, status) then 1 else 0
  {
    var all := WithStatus(doc, j, status);
    if r in all {
      assert all - (rest - {r}) == all - rest + {r};
    } else {
      assert all - (rest - {r}) == all - rest;
    }
  }

  /** The recipients outside `rest` have been looked at: `draft` holds their new records. */
  ghost predicate Rewritten(doc: Document, j: JobId, status: RecipientStatus, change: Recipient -> Recipient,
                            rest: set<RecipientId>, draft: map<RecipientId, Recipient>) {
    && draft.Keys == doc.recipients.Keys
    && forall r :: r in doc.recipients ==>
         draft[r] == if r in rest then doc.recipients[r] else Changed(doc.recipients[r], j, status, change)
  }

  lemma RewriteOne(doc: Document, j: JobId, status: RecipientStatus, change: Recipient -> Recipient,
                   rest: set<RecipientId>, draft: map<RecipientId, Recipient>, r: RecipientId)
    requires Rewritten(doc, j, status, change, rest, draft) && r in rest && r in doc.recipients
    ensures Rewritten(doc, j, status, change, rest - {r}, draft[r := Changed(doc.recipients[r], j, status, change)])
    ensures Changed(doc.recipients[r], j, status, change) == doc.recipients[r] ==>
              draft[r := Changed(doc.recipients[r], j, status, change)] == draft
  {
  }

  lemma RewriteIs(doc: Document, j: JobId, status: RecipientStatus, change: Recipient -> Recipient,
                  draft: map<RecipientId, Recipient>)
    requires Rewritten(doc, j, status, change, {}, draft)
    ensures draft == Rewrite(doc, j, status, change).recipients
  {
  }

  /** Where the loop stands: the records it has rewritten and how many of them it has counted. */
  ghost predicate Progress(doc: Document, j: JobId, status: RecipientStatus, change: Recipient -> Recipient,
                           rest: set<RecipientId>, draft: map<RecipientId, Recipient>, count: nat) {
    && rest <= doc.recipients.Keys
    && Rewritten(doc, j, status, change, rest, draft)
    && count == |WithStatus(doc, j, status) - rest|
  }

  lemma ProgressStart(doc: Document, j: JobId, status: RecipientStatus, change: Recipient -> Recipient)
    ensures Progress(doc, j, status, change, doc.recipients.Keys, doc.recipients, 0)
  {
    assert WithStatus(doc, j, status) - doc.recipients.Keys == {};
  }

  lemma ProgressStep(doc: Document, j: JobId, status: RecipientStatus, change: Recipient -> Recipient,
                     rest: set<RecipientId>, draft: map<RecipientId, Recipient>, count: nat, r: RecipientId)
    requires Progress(doc, j, status, change, rest, draft, count) && r in rest && r in doc.recipients
    ensures Progress(doc, j, status, change, rest - {r}, draft[r := Changed(doc.recipients[r], j, status, change)],
                     count + if r in WithStatus(doc, j, status) then 1 else 0)
    ensures Changed(doc.recipients[r], j, status, change) == doc.recipients[r] ==>
              draft[r := Changed(doc.recipients[r], j, status, change)] == draft
  {
    CountOne(doc, j, status, rest, r);
    RewriteOne(doc, j, status, change, rest, draft, r);
  }

  lemma ProgressEnd(doc: Document, j: JobId, status: RecipientStatus, change: Recipient -> Recipient,
                    draft: map<RecipientId, Recipient>, count: nat)
    requires Progress(doc, j, status, change, {}, draft, count)
    ensures Rewritten(doc, j, status, change, {}, draft) && count == |WithStatus(doc, j, status)|
  {
    assert WithStatus(doc, j, status) - {} == WithStatus(doc, j, status);
  }

  /** Give a new record to each recipient of `j` in `status`, one by one, and count them. */
  method RewriteAll(doc: Document, j: JobId, status: RecipientStatus, change: Recipient -> Recipient)
      returns (draft: map<RecipientId, Recipient>, count: nat)
    ensures Rewritten(doc, j, status, change, {}, draft)
    ensures count == |WithStatus(doc, j, status)|
  {
    draft, count := doc.recipients, 0;
    var rest := doc.recipients.Keys;
    ProgressStart(doc, j, status, change);
    while rest != {}
      invariant Progress(doc, j, status, change, rest, draft, count)
      decreases |rest|
    {
      var r :| r in rest;
      ProgressStep(doc, j, status, change, rest, draft, count, r);
      rest := rest - {r};
      if doc.recipients[r].job == j && doc.recipients[r].status == status {
        draft := draft[r := change(doc.recipients[r])];
        count := count + 1;
      }
    }
    ProgressEnd(doc, j, status, change, draft, count);
  }

  /** The oldest runnable job, and its due recipients up to the size of a batch, in the order of their ids. */
  ghost predicate TakesBatch(c: Config, doc: Document, j: JobId, now: int, batch: seq<RecipientId>) {
    && Runnable(doc.jobs, now, j) && (forall k :: Runnable(doc.jobs, now, k) ==> doc.jobs[j].createdAt <= doc.jobs[k].createdAt)
    && (forall i :: 0 <= i < |batch| ==> DuePending(doc.recipients, j, now, batch[i]))
    && (forall i, k :: 0 <= i < k < |batch| ==> IdBefore(batch[i], batch[k]))
    && forall r :: DuePending(doc.recipients, j, now, r) && r !in batch ==>
         |batch| == c.batchSize && forall i :: 0 <= i < |batch| ==> IdBefore(batch[i], r)
  }

  class BroadcastService {
    const config: Config
    var jobs: map<JobId, Job>
    var recipients: map<RecipientId, Recipient>
    var nextId: nat
    var ticking: bool

    constructor (config: Config)
      ensures this.config == config && Doc() == Start().doc && nextId == 0 && !ticking
    {
      this.config := config;
      jobs, recipients, nextId, ticking := map[], map[], 0, false;
    }

    function Doc(): Document
      reads this
    {
      Document(jobs, recipients)
    }

    // --- commands ------------------------------------------------------------------------------------------------

    method Prepare(users: seq<User>, limit: nat, at: int, writes: bool)
        returns (reply: Reply<JobId>, enlisted: seq<Identity>)
      modifies this`jobs, this`recipients, this`nextId
      ensures enlisted == Preview(users)
      ensures reply == if enlisted == [] then InvalidInput else if |enlisted| > limit then LimitExceeded
                       else if writes then Done(old(nextId)) else PersistenceFailed
      ensures reply.Done? ==>
                && Doc() == Opened(old(Doc()), old(nextId), at, enlisted)
                && nextId == old(nextId) + 1 + |enlisted|
      ensures reply.Done? ==>
                && jobs == old(jobs)[reply.value := Job(Prepared, at, |enlisted|, 0, None)]
                && EnlistsAll(old(recipients), recipients, reply.value, enlisted)
      ensures !reply.Done? ==> Doc() == old(Doc()) && nextId == old(nextId)
    {
      enlisted := ResolveAudience(users);
      if enlisted == [] { return InvalidInput, enlisted; }
      if |enlisted| > limit { return LimitExceeded, enlisted; }
      var j := nextId;
      var draft := Enlist(recipients, j, enlisted);
      if !writes { return PersistenceFailed, enlisted; }
      jobs := jobs[j := Job(Prepared, at, |enlisted|, 0, None)];
      recipients := draft;
      nextId := j + 1 + |enlisted|;
      EnlistedAll(old(recipients), j, enlisted);
      return Done(j), enlisted;
    }

    method Confirm(j: JobId, writes: bool) returns (reply: Reply<JobId>)
      modifies this`jobs
      ensures j !in old(jobs) ==> reply == NotFound
      ensures j in old(jobs) && old(jobs[j].status) == Running ==> reply == Done(j) && Doc() == old(Doc())
      ensures j in old(jobs) && old(jobs[j].status) == Prepared ==>
                if writes then reply == Done(j) && Doc() == ConfirmDoc(old(Doc()), j) else reply == PersistenceFailed
      ensures reply.Done? ==> jobs == old(jobs)[j := old(jobs[j]).(status := Running)] && recipients == old(recipients)
      ensures j in old(jobs) && old(jobs[j].status) != Prepared && old(jobs[j].status) != Running ==> reply == Conflict
      ensures !reply.Done? ==> Doc() == old(Doc())
    {
      if j !in jobs { return NotFound; }
      if jobs[j].status == Running { return Done(j); }
      if jobs[j].status != Prepared { return Conflict; }
      if !writes { return PersistenceFailed; }
      jobs := jobs[j := jobs[j].(status := Running)];
      return Done(j);
    }

    method Cancel(j: JobId, writes: bool) returns (reply: Reply<nat>)
      modifies this`jobs, this`recipients
      ensures j !in old(jobs) ==> reply == NotFound
      ensures j in old(jobs) && old(jobs[j].status) != Running && old(jobs[j].status) != Prepared ==> reply == Conflict
      ensures j in old(jobs) && (old(jobs[j].status) == Running || old(jobs[j].status) == Prepared) ==>
                reply == if writes then Done(|WithStatus(old(Doc()), j, Pending)|) else PersistenceFailed
      ensures reply.Done? ==> Doc() == CancelDoc(old(Doc()), j)
      ensures reply.Done? ==> jobs == old(jobs)[j := old(jobs[j]).(status := Cancelled)]
      ensures reply.Done? ==> recipients.Keys == old(recipients).Keys && forall r :: r in recipients ==>
                var was := old(recipients)[r];
                recipients[r] == if was.job == j && was.status == Pending then was.(status := Skipped) else was
      ensures !reply.Done? ==> Doc() == old(Doc())
    {
      if j !in jobs { return NotFound; }
      if jobs[j].status != Running && jobs[j].status != Prepared { return Conflict; }
      var draft, skipped := RewriteAll(Doc(), j, Pending, Drop);
      RewriteIs(Doc(), j, Pending, Drop, draft);
      if !writes { return PersistenceFailed; }
      recipients, jobs := draft, jobs[j := jobs[j].(status := Cancelled)];
      return Done(skipped);
    }

    method Retry(j: JobId, writes: bool) returns (reply: Reply<nat>)
      modifies this`jobs, this`recipients
      ensures j !in old(jobs) ==> reply == NotFound
      ensures j in old(jobs) && old(jobs[j].status) == Running ==> reply == Conflict
      ensures j in old(jobs) && old(jobs[j].status) != Running && old(jobs[j].retryCount) >= config.maxRetries ==>
                reply == LimitExceeded
      ensures j in old(jobs) && old(jobs[j].status) != Running && old(jobs[j].retryCount) < config.maxRetries ==>
                var failed := WithStatus(old(Doc()), j, Failure);
                reply == if failed == {} then Conflict else if writes then Done(|failed|) else PersistenceFailed
      ensures reply.Done? ==> Doc() == RetryDoc(old(Doc()), j)
      ensures reply.Done? ==>
                var was := old(jobs[j]);
                jobs == old(jobs)[j := was.(status := Running, retryCount := was.retryCount + 1, notBefore := None)]
      ensures reply.Done? ==> recipients.Keys == old(recipients).Keys && forall r :: r in recipients ==>
                var was := old(recipients)[r];
                recipients[r] == if was.job == j && was.status == Failure
                                 then was.(status := Pending, attempts := 0, notBefore := None) else was
      ensures !reply.Done? ==> Doc() == old(Doc())
    {
      if j !in jobs { return NotFound; }
      if jobs[j].status == Running { return Conflict; }
      if jobs[j].retryCount >= config.maxRetries { return LimitExceeded; }
      var draft, requeued := RewriteAll(Doc(), j, Failure, Requeue);
      RewriteIs(Doc(), j, Failure, Requeue, draft);
      if requeued == 0 { return Conflict; }
      if !writes { return PersistenceFailed; }
      recipients := draft;
      jobs := jobs[j := jobs[j].(status := Running, retryCount := jobs[j].retryCount + 1, notBefore := None)];
      return Done(requeued);
    }

    // --- the worker ------------------------------------------------------------------------------------------------

    method NextRunnableJob(now: int) returns (next: Option<JobId>)
      ensures next.None? <==> forall j :: !Runnable(jobs, now, j)
      ensures next.Some? ==> Runnable(jobs, now, next.value)
      ensures next.None? ==> forall j :: j in jobs && jobs[j].status == Running ==>
                jobs[j].notBefore.Some? && jobs[j].notBefore.value > now
      ensures next.Some? ==>
                && next.value in jobs && jobs[next.value].status == Running
                && (jobs[next.value].notBefore.Some? ==> jobs[next.value].notBefore.value <= now)
      ensures next.Some? ==> forall j :: Runnable(jobs, now, j) ==> jobs[next.value].createdAt <= jobs[j].createdAt
    {
      next := None;
      var rest := jobs.Keys;
      while rest != {}
        invariant rest <= jobs.Keys
        invariant next.None? ==> forall j :: Runnable(jobs, now, j) ==> j in rest
        invariant next.Some? ==> Runnable(jobs, now, next.value)
        invariant next.Some? ==>
                    forall j :: Runnable(jobs, now, j) && j !in rest ==> jobs[next.value].createdAt <= jobs[j].createdAt
        decreases |rest|
      {
        var j :| j in rest;
        rest := rest - {j};
        if Runnable(jobs, now, j) && (next.None? || jobs[j].createdAt < jobs[next.value].createdAt) {
          next := Some(j);
        }
      }
      assert next.None? ==> forall j :: j in jobs && jobs[j].status == Running ==> !Runnable(jobs, now, j);
    }

    /** The due pending recipient outside `taken` whose id text comes first. */
    method FirstDue(j: JobId, now: int, taken: set<RecipientId>) returns (first: Option<RecipientId>)
      ensures first.None? <==> forall r :: DuePending(recipients, j, now, r) ==> r in taken
      ensures first.Some? ==> DuePending(recipients, j, now, first.value) && first.value !in taken
      ensures first.Some? ==> forall r :: DuePending(recipients, j, now, r) && r !in taken ==> IdNotAfter(first.value, r)
    {
      first := None;
      var rest := recipients.Keys;
      while rest != {}
        invariant rest <= recipients.Keys
        invariant first.None? ==> forall r :: DuePending(recipients, j, now, r) && r !in taken ==> r in rest
        invariant first.Some? ==> DuePending(recipients, j, now, first.value) && first.value !in taken
        invariant first.Some? ==>
                    forall r :: DuePending(recipients, j, now, r) && r !in taken && r !in rest ==> IdNotAfter(first.value, r)
        decreases |rest|
      {
        var r :| r in rest;
        rest := rest - {r};
        IdTotal(r, r);
        if first.Some? { IdTotal(r, first.value); }
        if DuePending(recipients, j, now, r) && r !in taken && (first.None? || IdNotAfter(r, first.value)) {
          if first.Some? {
            forall q | IdNotAfter(first.value, q) ensures IdNotAfter(r, q) {
              IdTransitive(r, first.value, q);
            }
          }
          first := Some(r);
        }
      }
    }

    /** The first `batchSize` due pending recipients by id text, in order; fewer only when no more are due. */
    method ChooseBatch(j: JobId, now: int) returns (batch: seq<RecipientId>)
      ensures |batch| <= config.batchSize
      ensures forall i :: 0 <= i < |batch| ==> DuePending(recipients, j, now, batch[i])
      ensures forall i, k :: 0 <= i < k < |batch| ==> IdBefore(batch[i], batch[k])
      ensures forall r :: DuePending(recipients, j, now, r) && r !in batch ==>
                |batch| == config.batchSize && forall i :: 0 <= i < |batch| ==> IdBefore(batch[i], r)
      ensures |batch| < config.batchSize ==> forall r :: r in batch <==>
                && r in recipients && recipients[r].job == j && recipients[r].status == Pending
                && (recipients[r].notBefore.Some? ==> recipients[r].notBefore.value <= now)
    {
      batch := [];
      var taken: set<RecipientId> := {};
      var first := FirstDue(j, now, taken);
      while |batch| < config.batchSize && first.Some?
        invariant |batch| <= config.batchSize && forall r :: r in taken <==> r in batch
        invariant forall i :: 0 <= i < |batch| ==> DuePending(recipients, j, now, batch[i])
        invariant forall i, k :: 0 <= i < k < |batch| ==> IdBefore(batch[i], batch[k])
        invariant forall i, r :: 0 <= i < |batch| && DuePending(recipients, j, now, r) && r !in batch ==> IdBefore(batch[i], r)
        invariant first.None? <==> forall r :: DuePending(recipients, j, now, r) ==> r in taken
        invariant first.Some? ==> DuePending(recipients, j, now, first.value) && first.value !in taken
        invariant first.Some? ==> forall r :: DuePending(recipients, j, now, r) && r !in taken ==> IdNotAfter(first.value, r)
        decreases config.batchSize - |batch|
      {
        batch := batch + [first.value];
        taken := taken + {first.value};
        first := FirstDue(j, now, taken);
      }
    }

    /** A failed write is only logged; a recipient that is no longer PENDING keeps its stored outcome. */
    method StoreOutcome(r: RecipientId, status: RecipientStatus, attempts: nat, until: Option<int>, writes: bool)
      modifies this`recipients
      ensures recipients == if writes && r in old(recipients) && old(recipients[r].status) == Pending
                            then old(recipients)[r := old(recipients[r]).(status := status, attempts := attempts,
                                   notBefore := if until.None? then old(recipients[r]).notBefore else until)]
                            else old(recipients)
    {
      if !writes || r !in recipients || recipients[r].status != Pending { return; }
      var current := recipients[r];
      recipients := recipients[r := current.(status := status, attempts := attempts,
                                             notBefore := if until.None? then current.notBefore else until)];
    }

    method SendTo(r: RecipientId, read: Recipient, answer: Answer, now: int, writes: bool)
        returns (outcome: SendOutcome)
      modifies this`recipients
      ensures Doc() == if writes then StoreDoc(config, old(Doc()), r, read, answer, now) else old(Doc())
      ensures outcome == RateLimitedNow <==> answer == RateLimited
      ensures outcome == SentNow <==> answer == Accepted
      ensures outcome == UnknownNow <==> answer == NoAnswer
      ensures outcome == RetryScheduled <==> answer == Refused && read.attempts + 1 < config.maxAttempts
      ensures writes && r in old(recipients) && old(recipients[r]).status == Pending ==>
                && recipients.Keys == old(recipients).Keys && Records(config, old(recipients[r]), recipients[r], read, answer, now)
                && forall q :: q in recipients && q != r ==> recipients[q] == old(recipients)[q]
    {
      match answer {
        case NoAdapter =>
          StoreOutcome(r, Failure, read.attempts + 1, None, writes);
          return FailedNow;
        case NoAnswer =>
          StoreOutcome(r, Unknown, read.attempts + 1, None, writes);
          return UnknownNow;
        case Accepted =>
          StoreOutcome(r, Sent, read.attempts + 1, None, writes);
          return SentNow;
        case RateLimited =>
          StoreOutcome(r, Pending, read.attempts, Some(now + config.backoff), writes);
          return RateLimitedNow;
        case Refused =>
          if read.attempts + 1 < config.maxAttempts {
            StoreOutcome(r, Pending, read.attempts + 1, Some(now + config.backoff), writes);
            return RetryScheduled;
          }
          StoreOutcome(r, Failure, read.attempts + 1, None, writes);
          return FailedNow;
      }
    }

    method BackOff(j: JobId, now: int, writes: bool)
      modifies this`jobs
      ensures Doc() == if writes then BackOffDoc(config, old(Doc()), j, now) else old(Doc())
      ensures jobs == if writes && j in old(jobs) && old(jobs[j]).status == Running
                      then old(jobs)[j := old(jobs[j]).(notBefore := Some(now + config.backoff))] else old(jobs)
    {
      if writes && j in jobs && jobs[j].status == Running {
        jobs := jobs[j := jobs[j].(notBefore := Some(now + config.backoff))];
      }
    }

    method Finalize(j: JobId, writes: bool) returns (completed: bool)
      modifies this`jobs
      ensures Doc() == if writes then FinalizeDoc(old(Doc()), j) else old(Doc())
      ensures completed <==> writes && Closable(old(Doc()), j)
      ensures completed ==> jobs == old(jobs)[j := old(jobs[j]).(status := jobs[j].status)]
      ensures completed ==>
                var sent, failed := |WithStatus(Doc(), j, Sent)|, |WithStatus(Doc(), j, Failure)|;
                var unknown := |WithStatus(Doc(), j, Unknown)|;
                jobs[j].status == if sent == 0 && failed + unknown > 0 then Failed else Completed
      ensures !completed ==> Doc() == old(Doc())
    {
      completed := false;
      if j !in jobs || jobs[j].status != Running { return; }
      NonePending(Doc(), j);
      if |WithStatus(Doc(), j, Pending)| > 0 { return; }
      var sent, failed, unknown := |WithStatus(Doc(), j, Sent)|, |WithStatus(Doc(), j, Failure)|, |WithStatus(Doc(), j, Unknown)|;
      var status := if sent == 0 && failed + unknown > 0 then Failed else Completed;
      if !writes { return; }
      ghost var before := jobs;
      jobs := jobs[j := jobs[j].(status := status)];
      assert jobs[j] != before[j];
      completed := true;
    }

    /** The next send of the batch and its outcome, as two steps of the machine. */
    method SendNext(r: RecipientId, read: map<RecipientId, Recipient>, answer: Answer, now: int, write: bool, before: TickResult,
                    ghost start: State, ghost past: seq<Action>, ghost tick: Tick)
        returns (result: TickResult, ghost actions: seq<Action>)
      requires Valid(config, start, past) && past != [] && Run(config, start, past).doc == Doc()
      requires Run(config, start, past).tick == Some(tick) && tick.held.None? && !tick.stopped && tick.now == now
      requires tick.todo != [] && tick.todo[0] == r && r in read && tick.read == read
      requires !before.rateLimited && AddsUp(before) && CountsAnswers(before, Run(config, start, past).log)
      modifies this`recipients
      ensures Valid(config, start, actions) && actions != [] && actions[0] == past[0]
      ensures Run(config, start, actions) ==
              State(Doc(), Some(tick.(todo := tick.todo[1..], stopped := result.rateLimited)), Run(config, start, past).nextId,
                    Run(config, start, past).log + [Entry(r, answer)])
      ensures AddsUp(result) && CountsAnswers(result, Run(config, start, actions).log)
      ensures result.processed == before.processed + 1 && result.completed == before.completed
      ensures result.retryScheduled == before.retryScheduled +
              if answer == Refused && read[r].attempts + 1 < config.maxAttempts then 1 else 0
    {
      SendAndStore(config, start, past, answer, write);
      actions := past + [Action.Send(answer), Action.StoreOutcome(write)];
      var outcome := SendTo(r, read[r], answer, now, write);
      CountedMore(before, outcome, Run(config, start, past).log, Entry(r, answer));
      result := Count(before, outcome);
    }

    /** The batch loop: it stops at the first rate limit, and the trace says what was sent and stored. */
    method SendBatch(j: JobId, now: int, batch: seq<RecipientId>, answers: nat -> Answer, writes: nat -> bool,
                     ghost start: State)
        returns (result: TickResult, ghost actions: seq<Action>)
      requires forall i :: 0 <= i < |batch| ==> batch[i] in recipients
      requires start.doc == Doc() && start.nextId == nextId && start.log == []
      requires Enabled(config, start, StartTick(j, now, batch))
      modifies this`recipients
      ensures Valid(config, start, actions)
      ensures var end := Run(config, start, actions);
              && end.doc == Doc() && end.nextId == nextId && |end.log| == result.processed <= |batch|
              && end.tick.Some? && end.tick.value.held.None? && end.tick.value.job == j && end.tick.value.now == now
              && end.tick.value.stopped == result.rateLimited
              && (!result.rateLimited ==> end.tick.value.todo == [])
      ensures result.completed.None? && AddsUp(result) && CountsAnswers(result, Run(config, start, actions).log)
      ensures result.rateLimited || result.processed == |batch|
      ensures actions != [] && actions[0] == StartTick(j, now, batch)
    {
      result := TickResult(0, 0, 0, 0, 0, false, None);
      var read := Snapshot(Doc(), batch);
      Extend(config, start, [], StartTick(j, now, batch));
      actions := [] + [StartTick(j, now, batch)];
      ghost var at := Run(config, start, actions);
      var n := 0;
      while n < |batch| && !result.rateLimited
        invariant 0 <= n <= |batch| && n == result.processed && result.completed.None?
        invariant Valid(config, start, actions) && actions != [] && actions[0] == StartTick(j, now, batch)
        invariant Run(config, start, actions) == at && at.doc == Doc() && at.nextId == nextId && |at.log| == n
        invariant at.tick == Some(Tick(j, now, batch[n..], read, None, result.rateLimited))
        invariant AddsUp(result) && CountsAnswers(result, at.log)
      {
        assert batch[n..][1..] == batch[n + 1..];
        result, actions := SendNext(batch[n], read, answers(n), now, writes(n), result, start, actions,
                                    at.tick.value);
        at := Run(config, start, actions);
        n := n + 1;
      }
    }

    /**
     * One tick run alone is a run of the machine, so every theorem about runs applies to it: `actions` is that
     * run, and its log is what was sent. At most `batchSize` messages leave, and the counters add up.
     */
    method ProcessTick(now: int, answers: nat -> Answer, writes: nat -> bool)
        returns (result: TickResult, ghost actions: seq<Action>)
      modifies this
      ensures ticking == old(ticking) && nextId == old(nextId)
      ensures old(ticking) ==> Doc() == old(Doc())
      ensures Valid(config, State(old(Doc()), None, nextId, []), actions)
      ensures var end := Run(config, State(old(Doc()), None, nextId, []), actions);
              end.doc == Doc() && end.tick.None? && |end.log| == result.processed <= config.batchSize
      ensures AddsUp(result) && CountsAnswers(result, Run(config, State(old(Doc()), None, nextId, []), actions).log)
      ensures result.completed.Some? ==> !result.rateLimited
      ensures old(ticking) || (forall j :: !Runnable(old(jobs), now, j)) ==> actions == []
      ensures !old(ticking) && (exists j :: Runnable(old(jobs), now, j)) ==>
                && |actions| >= 2 && actions[0].StartTick? && TakesBatch(config, old(Doc()), actions[0].job, now, actions[0].batch)
                && (if result.rateLimited then actions[|actions| - 1].BackOff?
                    else actions[|actions| - 1].Finalize? && result.processed == |actions[0].batch|)
    {
      result, actions := TickResult(0, 0, 0, 0, 0, false, None), [];
      ghost var start := State(Doc(), None, nextId, []);
      if ticking { return; }
      ticking := true;
      var job := NextRunnableJob(now);
      if job.None? {
        ticking := false;
        return;
      }
      var j := job.value;
      var batch := ChooseBatch(j, now);
      assert forall i :: 0 <= i < |batch| ==> batch[i] in WithStatus(Doc(), j, Pending);
      result, actions := SendBatch(j, now, batch, answers, writes, start);
      var ok := writes(|batch|);
      CloseTick(config, start, actions, ok);
      if result.rateLimited {
        actions := actions + [Action.BackOff(ok)];
        BackOff(j, now, ok);
      } else {
        actions := actions + [Action.Finalize(ok)];
        var completed := Finalize(j, ok);
        result := result.(completed := if completed then Some(j) else None);
      }
      ticking := false;
    }
  }
}
