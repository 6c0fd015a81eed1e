/**
 * Editorial content from draft to publication: revisions, approvals, and what an editorial delivery may render.
 * Texts are values; whether one has markup or is an absolute URL is decided by the given rules.
 */
module ContentLifecycle {
  import opened Common

  type ContentId = nat

  datatype Status = Draft | Approved | Scheduled | Published | Failed | Cancelled

  /** Everything a rendered message depends on; a missing media address and an empty one are the same. */
  datatype Material = Material(title: string, body: string, media: Option<string>, includeMarket: bool, cta: nat)

  datatype Content = Content(material: Material, revision: nat, status: Status, approvedAt: Option<int>,
                             scheduledAt: Option<int>, reportingDay: Option<int>, nightly: bool)

  /** A missing field keeps what the item had; `Some(None)` clears the media. */
  datatype Patch = Patch(title: Option<string>, body: Option<string>, media: Option<Option<string>>, includeMarket: Option<bool>)

  function Or<T>(x: Option<T>, y: T): T {
    if x.Some? then x.value else y
  }

  function Patched(existing: Material, p: Patch): Material {
    Material(Or(p.title, existing.title), Or(p.body, existing.body), Or(p.media, existing.media),
             Or(p.includeMarket, existing.includeMarket), existing.cta)
  }

  // --- the transactions --------------------------------------------------------------------------------------------

  function Created(m: Material, reportingDay: Option<int>, nightly: bool): Content {
    Content(m, 1, Draft, None, None, reportingDay, nightly)
  }

  /**
   * An edit compares its patch with the item it read, but writes over the item the transaction finds; the call to
   * action is not part of an edit.
   */
  function Edited(current: Content, read: Content, p: Patch): Content {
    var next := Patched(read.material, p);
    var written := next.(cta := current.material.cta);
    if next != read.material
    then current.(material := written, revision := current.revision + 1, status := Draft, approvedAt := None, scheduledAt := None)
    else current.(material := written)
  }

  function WithCta(current: Content, cta: nat): Content {
    current.(material := current.material.(cta := cta), revision := current.revision + 1, status := Draft,
             approvedAt := None, scheduledAt := None)
  }

  function Approve(current: Content, now: int): Content {
    current.(status := Approved, approvedAt := Some(now))
  }

  function Schedule(current: Content, at: int): Content {
    current.(status := Scheduled, scheduledAt := Some(at))
  }

  function Cancel(current: Content): Content {
    current.(status := Cancelled, scheduledAt := None)
  }

  function Reopen(current: Content): Content {
    current.(status := Draft, revision := current.revision + 1, approvedAt := None)
  }

  datatype Skip = PublicationCancelled | RevisionChanged | StillDraft | NeverApproved | MissedWindow
  datatype Decision = Render(material: Material) | Refuse(reason: Skip)

  /** The engine's check at execution time. */
  function Decide(content: Content, jobRevision: nat, today: int): Decision {
    if content.status == Cancelled then Refuse(PublicationCancelled)
    else if content.revision != jobRevision then Refuse(RevisionChanged)
    else if content.status == Draft then Refuse(StillDraft)
    else if content.approvedAt.None? then Refuse(NeverApproved)
    else if content.nightly && content.reportingDay.Some? && content.reportingDay.value != today then Refuse(MissedWindow)
    else Render(content.material)
  }

  // --- runs ------------------------------------------------------------------------------------------------------------

  /** What one revision of an item denotes. */
  datatype Version = Version(id: ContentId, revision: nat, material: Material)

  /**
   * `mem` and `disk` are the items in memory and in the file, `payloads` the messages that running executions have
   * decided to publish, `sent` the messages handed to a platform. `seen` and `approvals` are history: every version
   * there ever was, and every version somebody approved.
   */
  datatype State = State(mem: map<ContentId, Content>, disk: map<ContentId, Content>, seen: set<Version>,
                         approvals: set<Version>, payloads: multiset<Version>, sent: seq<Version>)

  /**
   * The status checks of the service run before the transactions, which do not repeat them, so an operation may
   * find the item in any status. `read` is the item an edit compared its patch with.
   */
  datatype Operation =
    | Create(id: ContentId, material: Material, reportingDay: Option<int>, nightly: bool)
    | Edit(id: ContentId, read: Content, patch: Patch)
    | SetCta(id: ContentId, cta: nat)
    | ApproveIt(id: ContentId, now: int)
    | ScheduleIt(id: ContentId, at: int)
    | CancelIt(id: ContentId)
    | ReopenIt(id: ContentId)
    | Mark(id: ContentId, status: Status)

  /**
   * A failed write leaves memory changed and the file as it was; any later write of the document that succeeds,
   * `OtherWrite` included, stores all of memory. An execution first decides what to publish; the platform is called
   * later, any number of times, until the execution ends, which a restart does to all of them.
   */
  datatype Action =
    | Transact(op: Operation, ok: bool)
    | OtherWrite
    | Decided(id: ContentId, jobRevision: nat, today: int)
    | Deliver(payload: Version)
    | Ended(payload: Version)
    | Restart

  /** Item ids are never drawn twice; the engine and `markFailed` only ever mark FAILED or PUBLISHED. */
  ghost predicate Allowed(s: State, op: Operation) {
    match op
    case Create(id, _, _, _) => id !in s.mem && forall v :: v in s.seen ==> v.id != id
    case Mark(id, status) => id in s.mem && (status == Failed || status == Published)
    case _ => op.id in s.mem
  }

  ghost predicate Enabled(s: State, a: Action) {
    match a
    case Transact(op, _) => Allowed(s, op)
    case OtherWrite => true
    case Decided(id, jobRevision, today) => id in s.mem && Decide(s.mem[id], jobRevision, today).Render?
    case Deliver(payload) => payload in s.payloads
    case Ended(payload) => payload in s.payloads
    case Restart => true
  }

  function Rewritten(c: Content, op: Operation): Content {
    match op
    case Create(_, m, day, nightly) => Created(m, day, nightly)
    case Edit(_, read, p) => Edited(c, read, p)
    case SetCta(_, cta) => WithCta(c, cta)
    case ApproveIt(_, now) => Approve(c, now)
    case ScheduleIt(_, at) => Schedule(c, at)
    case CancelIt(_) => Cancel(c)
    case ReopenIt(_) => Reopen(c)
    case Mark(_, status) => c.(status := status)
  }

  function VersionOf(id: ContentId, c: Content): Version {
    Version(id, c.revision, c.material)
  }

  /** The item an operation leaves in memory. */
  ghost function Next(s: State, op: Operation): Content
    requires Allowed(s, op)
  {
    if op.Create? then Created(op.material, op.reportingDay, op.nightly) else Rewritten(s.mem[op.id], op)
  }

  ghost function Step(s: State, a: Action): State
    requires Enabled(s, a)
  {
    match a
    case Transact(op, ok) =>
      var c := Next(s, op);
      var mem := s.mem[op.id := c];
      State(mem, if ok then mem else s.disk, s.seen + {VersionOf(op.id, c)},
            if op.ApproveIt? then s.approvals + {VersionOf(op.id, c)} else s.approvals, s.payloads, s.sent)
    case OtherWrite => s.(disk := s.mem)
    case Decided(id, jobRevision, today) =>
      s.(payloads := s.payloads + multiset{Version(id, jobRevision, Decide(s.mem[id], jobRevision, today).material)})
    case Deliver(payload) => s.(sent := s.sent + [payload])
    case Ended(payload) => s.(payloads := s.payloads - multiset{payload})
    case Restart => s.(mem := s.disk, payloads := multiset{})
  }

  ghost predicate Valid(s: State, actions: seq<Action>)
    decreases |actions|
  {
    actions == [] || (Enabled(s, actions[0]) && Valid(Step(s, actions[0]), actions[1..]))
  }

  ghost function Run(s: State, actions: seq<Action>): State
    requires Valid(s, actions)
    decreases |actions|
  {
    if actions == [] then s else Run(Step(s, actions[0]), actions[1..])
  }

  function Empty(): State {
    State(map[], map[], {}, {}, multiset{}, [])
  }

  // --- what an edit must have read ---------------------------------------------------------------------------------------

  /** The patch changed what the edit read, or what it writes is what is there. */
  predicate EditFits(current: Content, read: Content, p: Patch) {
    Patched(read.material, p) != read.material || read.material.(cta := current.material.cta) == current.material
  }

  predicate Fits(s: State, a: Action) {
    a.Transact? && a.op.Edit? && a.op.id in s.mem ==> EditFits(s.mem[a.op.id], a.op.read, a.op.patch)
  }

  ghost predicate EditsFit(s: State, actions: seq<Action>)
    requires Valid(s, actions)
    decreases |actions|
  {
    actions == [] || (Fits(s, actions[0]) && EditsFit(Step(s, actions[0]), actions[1..]))
  }

  /** A restart would bring back an older revision of this item. */
  predicate RevisionLost(s: State, id: ContentId) {
    id in s.disk && id in s.mem && s.disk[id].revision < s.mem[id].revision
  }

  /** No restart of the run takes an item back to an older revision. */
  ghost predicate RevisionsOnDisk(s: State, actions: seq<Action>)
    requires Valid(s, actions)
    decreases |actions|
  {
    actions == [] ||
    ((actions[0].Restart? ==> forall id :: !RevisionLost(s, id)) && RevisionsOnDisk(Step(s, actions[0]), actions[1..]))
  }

  /** An edit keeps the meaning of the present revision exactly when it fits. */
  lemma StaleEditExactly(current: Content, read: Content, p: Patch)
    ensures var next := Edited(current, read, p);
            (next.revision == current.revision ==> next.material == current.material) <==> EditFits(current, read, p)
  {
  }

  /** A transaction either starts a new revision, without approval, or leaves the material alone. */
  lemma RevisionOrSame(c: Content, op: Operation)
    requires !op.Create? && (op.Edit? ==> EditFits(c, op.read, op.patch))
    ensures var next := Rewritten(c, op);
            if next.revision == c.revision
            then next.material == c.material && (next.approvedAt.Some? ==> c.approvedAt.Some? || op.ApproveIt?)
            else next.revision == c.revision + 1 && next.approvedAt.None?
  {
  }

  // --- what is sent is what was approved ---------------------------------------------------------------------------------

  /** A set approval is one of exactly this version. */
  predicate ApprovedAs(id: ContentId, c: Content, approvals: set<Version>) {
    c.approvedAt.Some? ==> VersionOf(id, c) in approvals
  }

  ghost predicate Truthful(s: State) {
    && (forall id :: id in s.mem ==> ApprovedAs(id, s.mem[id], s.approvals))
    && (forall id :: id in s.disk ==> ApprovedAs(id, s.disk[id], s.approvals))
    && (forall v :: v in s.payloads ==> v in s.approvals) && s.approvals <= s.seen
    && forall i :: 0 <= i < |s.sent| ==> s.sent[i] in s.approvals
  }

  lemma TruthfulStep(s: State, a: Action)
    requires Truthful(s) && Enabled(s, a) && Fits(s, a)
    ensures Truthful(Step(s, a))
  {
    if a.Transact? {
      var t := Step(s, a);
      forall id | id in t.mem ensures ApprovedAs(id, t.mem[id], t.approvals) {
        if id == a.op.id && !a.op.Create? {
          RevisionOrSame(s.mem[id], a.op);
          assert ApprovedAs(id, s.mem[id], s.approvals);
        } else if id != a.op.id {
          assert ApprovedAs(id, s.mem[id], s.approvals);
        }
      }
      forall id | id in s.disk ensures ApprovedAs(id, s.disk[id], t.approvals) {
        assert ApprovedAs(id, s.disk[id], s.approvals);
      }
    } else if a.Decided? {
      assert ApprovedAs(a.id, s.mem[a.id], s.approvals);
    }
  }

  lemma {:induction false} TruthfulRun(s: State, actions: seq<Action>)
    requires Truthful(s) && Valid(s, actions) && EditsFit(s, actions)
    ensures Truthful(Run(s, actions))
    decreases |actions|
  {
    if actions != [] {
      TruthfulStep(s, actions[0]);
      TruthfulRun(Step(s, actions[0]), actions[1..]);
    }
  }

  /**
   * However operations, failed writes, restarts and publications interleave, as long as edits fit: a set approval is
   * one of exactly the present content, and everything sent was approved at the revision of its job.
   */
  lemma SentWasApproved(actions: seq<Action>)
    requires Valid(Empty(), actions) && EditsFit(Empty(), actions)
    ensures var s := Run(Empty(), actions);
            && (forall id :: id in s.mem && s.mem[id].approvedAt.Some? ==> VersionOf(id, s.mem[id]) in s.approvals)
            && forall i :: 0 <= i < |s.sent| ==> s.sent[i] in s.approvals
  {
    TruthfulRun(Empty(), actions);
    var s := Run(Empty(), actions);
    forall id | id in s.mem && s.mem[id].approvedAt.Some? ensures VersionOf(id, s.mem[id]) in s.approvals {
      assert ApprovedAs(id, s.mem[id], s.approvals);
    }
  }

  /** What an execution decides to publish is, at that moment, the approved content at the revision of its job. */
  lemma DecidedWhenApproved(s: State, a: Action)
    requires Truthful(s) && Enabled(s, a) && a.Decided?
    ensures var c := s.mem[a.id];
            && c.status != Draft && c.status != Cancelled && c.revision == a.jobRevision
            && VersionOf(a.id, c) in s.approvals
            && Step(s, a).payloads == s.payloads + multiset{VersionOf(a.id, c)}
  {
    assert ApprovedAs(a.id, s.mem[a.id], s.approvals);
  }

  // --- what a revision denotes -------------------------------------------------------------------------------------------

  /** No revision of an item denotes two materials. */
  ghost predicate OneMeaning(seen: set<Version>) {
    forall v, u | v in seen && u in seen :: v.id == u.id && v.revision == u.revision ==> v.material == u.material
  }

  /** The item's version is known, and it is the newest. */
  ghost predicate Newest(id: ContentId, c: Content, seen: set<Version>) {
    VersionOf(id, c) in seen && forall v :: v in seen && v.id == id ==> v.revision <= c.revision
  }

  ghost predicate Inv(s: State) {
    && OneMeaning(s.seen)
    && (forall id :: id in s.mem ==> Newest(id, s.mem[id], s.seen))
    && (forall id :: id in s.disk ==> id in s.mem && VersionOf(id, s.disk[id]) in s.seen)
  }

  lemma MeaningAdded(seen: set<Version>, v: Version)
    requires OneMeaning(seen)
    ensures OneMeaning(seen + {v}) <==>
            forall u :: u in seen && u.id == v.id && u.revision == v.revision ==> u.material == v.material
  {
    if !forall u :: u in seen && u.id == v.id && u.revision == v.revision ==> u.material == v.material {
      var u :| u in seen && u.id == v.id && u.revision == v.revision && u.material != v.material;
      assert u in seen + {v} && v in seen + {v};
    }
  }

  /** One transaction from a state in which revisions have a meaning keeps it exactly when it fits. */
  lemma TransactExactly(s: State, a: Action)
    requires Inv(s) && Enabled(s, a) && a.Transact?
    ensures Fits(s, a) <==> OneMeaning(Step(s, a).seen)
  {
    var v := VersionOf(a.op.id, Next(s, a.op));
    MeaningAdded(s.seen, v);
    if !a.op.Create? {
      assert Newest(a.op.id, s.mem[a.op.id], s.seen);
      if Fits(s, a) {
        RevisionOrSame(s.mem[a.op.id], a.op);
      } else {
        assert VersionOf(a.op.id, s.mem[a.op.id]) in s.seen;
      }
    }
  }

  lemma StepKeeps(s: State, a: Action)
    requires Inv(s) && Enabled(s, a) && Fits(s, a) && (a.Restart? ==> forall id :: !RevisionLost(s, id))
    ensures Inv(Step(s, a))
  {
    var t := Step(s, a);
    if a.Transact? {
      TransactExactly(s, a);
      forall id | id in t.mem ensures Newest(id, t.mem[id], t.seen) {
        if id in s.mem { assert Newest(id, s.mem[id], s.seen); }
        if id == a.op.id && !a.op.Create? { RevisionOrSame(s.mem[id], a.op); }
      }
    } else if a.Restart? {
      forall id | id in t.mem ensures Newest(id, t.mem[id], t.seen) {
        assert Newest(id, s.mem[id], s.seen) && !RevisionLost(s, id);
      }
    }
  }

  lemma {:induction false} SeenStays(s: State, actions: seq<Action>)
    requires Valid(s, actions)
    ensures s.seen <= Run(s, actions).seen
    decreases |actions|
  {
    if actions != [] {
      SeenStays(Step(s, actions[0]), actions[1..]);
    }
  }

  lemma {:induction false} MeaningExactly(s: State, actions: seq<Action>)
    requires Inv(s) && Valid(s, actions) && RevisionsOnDisk(s, actions)
    ensures OneMeaning(Run(s, actions).seen) <==> EditsFit(s, actions)
    ensures EditsFit(s, actions) ==> Inv(Run(s, actions))
    decreases |actions|
  {
    if actions != [] {
      var a := actions[0];
      if Fits(s, a) {
        StepKeeps(s, a);
        MeaningExactly(Step(s, a), actions[1..]);
      } else {
        TransactExactly(s, a);
        SeenStays(Step(s, a), actions[1..]);
        assert forall v :: v in Step(s, a).seen ==> v in Run(s, actions).seen;
      }
    }
  }

  /**
   * In a run whose restarts find the newest revision of every stored item on disk, no revision ever denotes two texts
   * if and only if every edit fits the item it writes over.
   */
  lemma RevisionsHaveOneMeaning(actions: seq<Action>)
    requires Valid(Empty(), actions) && RevisionsOnDisk(Empty(), actions)
    ensures OneMeaning(Run(Empty(), actions).seen) <==> EditsFit(Empty(), actions)
  {
    MeaningExactly(Empty(), actions);
  }

  /** An orderly continuation gives one revision two texts. */
  ghost predicate Spoils(s: State, actions: seq<Action>) {
    && Valid(s, actions) && EditsFit(s, actions) && RevisionsOnDisk(s, actions)
    && !OneMeaning(Run(s, actions).seen)
  }

  /**
   * After a restart some orderly continuation gives one revision two texts if and only if the restart took a stored
   * item back to an older revision. Lost approvals, schedules and whole items do no harm.
   */
  lemma RestartSpoilsExactly(s: State)
    requires Inv(s)
    ensures (exists actions :: Spoils(Step(s, Restart), actions)) <==> exists id :: RevisionLost(s, id)
  {
    var t := Step(s, Restart);
    if id :| RevisionLost(s, id) {
      assert Newest(id, s.mem[id], s.seen);
      var actions := Overtake(t, VersionOf(id, s.mem[id]));
      assert Spoils(t, actions);
    } else {
      StepKeeps(s, Restart);
      forall actions | Valid(t, actions) && EditsFit(t, actions) && RevisionsOnDisk(t, actions)
        ensures OneMeaning(Run(t, actions).seen)
      {
        MeaningExactly(t, actions);
      }
    }
  }

  /** Change the button until the revision of `v` is reached again, with another button than that of `v`. */
  lemma {:induction false} Overtake(s: State, v: Version) returns (actions: seq<Action>)
    requires v in s.seen && v.id in s.mem && s.mem[v.id].revision < v.revision
    ensures Spoils(s, actions)
    decreases v.revision - s.mem[v.id].revision
  {
    var cta := if s.mem[v.id].material.cta == v.material.cta + 1 then v.material.cta + 2 else v.material.cta + 1;
    var a := Transact(SetCta(v.id, cta), true);
    var t := Step(s, a);
    if t.mem[v.id].revision == v.revision {
      assert VersionOf(v.id, t.mem[v.id]) in t.seen;
      One(s, a, []);
      actions := [a] + [];
    } else {
      var rest := Overtake(t, v);
      One(s, a, rest);
      actions := [a] + rest;
    }
  }

  lemma One(s: State, a: Action, rest: seq<Action>)
    requires Enabled(s, a) && Valid(Step(s, a), rest)
    ensures Valid(s, [a] + rest) && Run(s, [a] + rest) == Run(Step(s, a), rest)
    ensures EditsFit(s, [a] + rest) <==> Fits(s, a) && EditsFit(Step(s, a), rest)
    ensures RevisionsOnDisk(s, [a] + rest) <==>
            (a.Restart? ==> forall id :: !RevisionLost(s, id)) && RevisionsOnDisk(Step(s, a), rest)
  {
    assert ([a] + rest)[1..] == rest;
  }

  // --- runs that go wrong ------------------------------------------------------------------------------------------------

  lemma {:induction false} Then(s: State, first: seq<Action>, rest: seq<Action>)
    requires Valid(s, first) && Valid(Run(s, first), rest)
    ensures Valid(s, first + rest) && Run(s, first + rest) == Run(Run(s, first), rest)
    decreases |first|
  {
    if first == [] {
      assert first + rest == rest;
    } else {
      Then(Step(s, first[0]), first[1..], rest);
      FirstOf(first, rest);
    }
  }

  lemma FirstOf(first: seq<Action>, rest: seq<Action>)
    requires first != []
    ensures first + rest != [] && (first + rest)[0] == first[0] && (first + rest)[1..] == first[1..] + rest
  {
  }

  /** The run sends this one version and, when its writes fail, leaves the file alone. */
  ghost predicate Sends(s: State, actions: seq<Action>, v: Version, ok: bool) {
    Valid(s, actions) && Run(s, actions).sent == s.sent + [v] && (!ok ==> Run(s, actions).disk == s.disk)
  }

  /** Give an item another title, approve it, decide and send. */
  lemma Publishes(s: State, id: ContentId, title: string, ok: bool) returns (actions: seq<Action>)
    requires id in s.mem && s.mem[id].material.title != title && !s.mem[id].nightly
    ensures Sends(s, actions, Version(id, s.mem[id].revision + 1, s.mem[id].material.(title := title)), ok)
  {
    var c := s.mem[id];
    var edit, approve := Transact(Edit(id, c, Patch(Some(title), None, None, None)), ok), Transact(ApproveIt(id, 0), ok);
    var v := Version(id, c.revision + 1, c.material.(title := title));
    var s1 := Step(s, edit);
    assert s1.mem[id].material == v.material && s1.mem[id].revision == v.revision;
    var s2 := Step(s1, approve);
    assert s2.mem[id] == Approve(s1.mem[id], 0);
    var s3 := Step(s2, Decided(id, v.revision, 0));
    One(s3, Deliver(v), []);
    One(s2, Decided(id, v.revision, 0), [Deliver(v)] + []);
    One(s1, approve, [Decided(id, v.revision, 0)] + ([Deliver(v)] + []));
    One(s, edit, [approve] + ([Decided(id, v.revision, 0)] + ([Deliver(v)] + [])));
    actions := [edit] + ([approve] + ([Decided(id, v.revision, 0)] + ([Deliver(v)] + [])));
  }

  /** A failure mark overwrites every status and keeps the approval, so the present version can be sent. */
  lemma MarkedIsSent(s: State, id: ContentId) returns (actions: seq<Action>)
    requires id in s.mem && s.mem[id].approvedAt.Some?
    ensures Valid(s, actions) && EditsFit(s, actions)
    ensures Run(s, actions).sent == s.sent + [VersionOf(id, s.mem[id])] && Run(s, actions).approvals == s.approvals
  {
    var v := VersionOf(id, s.mem[id]);
    var today := if s.mem[id].reportingDay.Some? then s.mem[id].reportingDay.value else 0;
    var a0, a1, a2 := Transact(Mark(id, Failed), true), Decided(id, v.revision, today), Deliver(v);
    var s1 := Step(s, a0);
    var s2 := Step(s1, a1);
    One(s2, a2, []);
    One(s1, a1, [a2] + []);
    One(s, a0, [a1] + ([a2] + []));
    actions := [a0] + ([a1] + ([a2] + []));
  }

  ghost predicate SendsUnapproved(s: State, actions: seq<Action>) {
    Valid(s, actions) && EditsFit(s, actions) &&
    exists v :: v in Run(s, actions).sent && v !in Run(s, actions).approvals
  }

  /** After one edit something unapproved can be sent if and only if the edit does not fit and the item is approved. */
  lemma UnapprovedSentExactly(s: State, a: Action)
    requires Inv(s) && Truthful(s) && Enabled(s, a) && a.Transact? && a.op.Edit?
    ensures (exists actions :: SendsUnapproved(Step(s, a), actions)) <==>
            !Fits(s, a) && s.mem[a.op.id].approvedAt.Some?
  {
    var t := Step(s, a);
    var id := a.op.id;
    assert Newest(id, s.mem[id], s.seen) && ApprovedAs(id, s.mem[id], s.approvals);
    if !Fits(s, a) && s.mem[id].approvedAt.Some? {
      var v := VersionOf(id, t.mem[id]);
      assert v !in s.approvals by {
        assert VersionOf(id, s.mem[id]) in s.seen && v !in s.seen;
      }
      var actions := MarkedIsSent(t, id);
      assert Run(t, actions).sent[|s.sent|] == v;
      assert SendsUnapproved(t, actions);
    } else {
      UnapprovedEditIsHarmless(s, a);
      forall actions | Valid(t, actions) && EditsFit(t, actions) ensures !SendsUnapproved(t, actions) {
        TruthfulRun(t, actions);
      }
    }
  }

  lemma UnapprovedEditIsHarmless(s: State, a: Action)
    requires Truthful(s) && Enabled(s, a) && a.Transact? && a.op.Edit? && (Fits(s, a) || s.mem[a.op.id].approvedAt.None?)
    ensures Truthful(Step(s, a))
  {
    if Fits(s, a) {
      TruthfulStep(s, a);
    } else {
      var t := Step(s, a);
      forall id | id in t.mem ensures ApprovedAs(id, t.mem[id], t.approvals) {
        if id != a.op.id { assert ApprovedAs(id, s.mem[id], s.approvals); }
      }
      forall id | id in t.disk ensures ApprovedAs(id, t.disk[id], t.approvals) {
        if id in s.disk { assert ApprovedAs(id, s.disk[id], s.approvals); }
      }
    }
  }

  /** Lost writes and a restart: two texts go out as one revision of one item. */
  lemma LostWritesSendTwoTexts(m: Material, x: string, y: string) returns (actions: seq<Action>)
    requires m.title != x && m.title != y
    ensures Valid(Empty(), actions)
    ensures Run(Empty(), actions).sent == [Version(0, 2, m.(title := x)), Version(0, 2, m.(title := y))]
  {
    var create := Transact(Create(0, m, None, false), true);
    var item := Created(m, None, false);
    var s1 := Step(Empty(), create);
    assert s1.mem == map[0 := item] == s1.disk;
    var lost := Publishes(s1, 0, x, false);
    var s2 := Run(s1, lost);
    var s3 := Step(s2, Restart);
    var second := Publishes(s3, 0, y, true);
    One(s2, Restart, second);
    Then(s1, lost, [Restart] + second);
    One(Empty(), create, lost + ([Restart] + second));
    actions := [create] + (lost + ([Restart] + second));
    assert Run(Empty(), actions).sent == [] + [Version(0, 2, m.(title := x))] + [Version(0, 2, m.(title := y))];
  }

  /** Two editors at once: the text of the second goes out under the approval of the first. */
  lemma StaleEditSendsUnapproved(m: Material, title: string) returns (actions: seq<Action>)
    requires title != m.title
    ensures Valid(Empty(), actions)
    ensures Run(Empty(), actions).sent == [Version(0, 2, m)] && Version(0, 2, m) !in Run(Empty(), actions).approvals
  {
    var read := Created(m, None, false);
    var keep := Patch(None, None, None, None);
    var a0, a1 := Transact(Create(0, m, None, false), true), Transact(Edit(0, read, keep.(title := Some(title))), true);
    var a2, a3 := Transact(ApproveIt(0, 5), true), Transact(Edit(0, read, keep), true);
    var a4, a5 := Decided(0, 2, 0), Deliver(Version(0, 2, m));
    var s1 := Step(Empty(), a0);
    var s2 := Step(s1, a1);
    var s3 := Step(s2, a2);
    assert s3.mem[0].approvedAt.Some? && s3.approvals == {Version(0, 2, m.(title := title))};
    var s4 := Step(s3, a3);
    assert s4.mem[0].material == m && s4.mem[0].revision == 2 && s4.mem[0].approvedAt.Some?;
    var s5 := Step(s4, a4);
    One(s5, a5, []);
    One(s4, a4, [a5] + []);
    One(s3, a3, [a4] + ([a5] + []));
    One(s2, a2, [a3] + ([a4] + ([a5] + [])));
    One(s1, a1, [a2] + ([a3] + ([a4] + ([a5] + []))));
    One(Empty(), a0, [a1] + ([a2] + ([a3] + ([a4] + ([a5] + [])))));
    actions := [a0] + ([a1] + ([a2] + ([a3] + ([a4] + ([a5] + [])))));
    assert Run(Empty(), actions).sent == [] + [Version(0, 2, m)];
  }

  // --- cancelling ----------------------------------------------------------------------------------------------------------

  predicate Renders(mem: map<ContentId, Content>, id: ContentId, revision: nat, today: int) {
    id in mem && Decide(mem[id], revision, today).Render?
  }

  /** The item is gone, cancelled, or at a later revision than the one that was cancelled. */
  predicate Withdrawn(mem: map<ContentId, Content>, id: ContentId, revision: nat) {
    id in mem ==> mem[id].revision > revision || (mem[id].revision == revision && mem[id].status == Cancelled)
  }

  /** What takes a cancelled item out of that status without a new revision. */
  predicate Revives(s: State, a: Action, id: ContentId, revision: nat) {
    match a
    case Transact(op, _) =>
      (op.Mark? || op.ApproveIt? || op.ScheduleIt?) && op.id == id && id in s.mem && s.mem[id].revision == revision
    case Restart => !Withdrawn(s.disk, id, revision)
    case _ => false
  }

  lemma WithdrawnStep(s: State, a: Action, id: ContentId, revision: nat)
    requires Enabled(s, a) && Withdrawn(s.mem, id, revision) && (exists v :: v in s.seen && v.id == id)
    ensures Withdrawn(Step(s, a).mem, id, revision) <==> !Revives(s, a, id, revision)
  {
  }

  ghost predicate NothingRevives(s: State, actions: seq<Action>, id: ContentId, revision: nat)
    requires Valid(s, actions)
    decreases |actions|
  {
    actions == [] ||
    (!Revives(s, actions[0], id, revision) && NothingRevives(Step(s, actions[0]), actions[1..], id, revision))
  }

  /** Until something revives it, no execution renders a cancelled item at the cancelled revision. */
  lemma {:induction false} CancelledStaysOut(s: State, actions: seq<Action>, id: ContentId, revision: nat, today: int)
    requires Withdrawn(s.mem, id, revision) && (exists v :: v in s.seen && v.id == id)
    requires Valid(s, actions) && NothingRevives(s, actions, id, revision)
    ensures !Renders(Run(s, actions).mem, id, revision, today)
    decreases |actions|
  {
    if actions != [] {
      WithdrawnStep(s, actions[0], id, revision);
      CancelledStaysOut(Step(s, actions[0]), actions[1..], id, revision, today);
    }
  }

  /** An action makes a cancelled item renderable at its revision exactly as follows. */
  lemma RevivedExactly(s: State, a: Action, id: ContentId, today: int)
    requires id in s.mem && s.mem[id].status == Cancelled && Enabled(s, a)
    ensures var c := s.mem[id];
            Renders(Step(s, a).mem, id, c.revision, today) <==>
            match a
            case Transact(op, _) =>
              && op.id == id && (op.ApproveIt? || ((op.Mark? || op.ScheduleIt?) && c.approvedAt.Some?))
              && (c.nightly && c.reportingDay.Some? ==> c.reportingDay.value == today)
            case Restart => Renders(s.disk, id, c.revision, today)
            case _ => false
  {
  }

  /** From an empty store: approve, cancel, a late failure mark, and the cancelled item is sent at its old revision. */
  lemma FailureMarkRevives(m: Material) returns (before: seq<Action>, after: seq<Action>)
    ensures Valid(Empty(), before + after) && before == [Transact(Create(0, m, None, false), true),
                                                         Transact(ApproveIt(0, 5), true), Transact(CancelIt(0), true)]
    ensures Run(Empty(), before + after).sent == [Version(0, 1, m)]
  {
    var a0, a1, a2 := Transact(Create(0, m, None, false), true), Transact(ApproveIt(0, 5), true), Transact(CancelIt(0), true);
    var s1 := Step(Empty(), a0);
    var s2 := Step(s1, a1);
    var s3 := Step(s2, a2);
    assert s3.mem[0].approvedAt.Some? && VersionOf(0, s3.mem[0]) == Version(0, 1, m) && s3.sent == [];
    One(s2, a2, []);
    One(s1, a1, [a2] + []);
    One(Empty(), a0, [a1] + ([a2] + []));
    before := [a0] + ([a1] + ([a2] + []));
    after := MarkedIsSent(s3, 0);
    Then(Empty(), before, after);
  }

  function Ends(actions: seq<Action>, payload: Version): nat {
    if actions == [] then 0 else Ends(actions[1..], payload) + if actions[0] == Ended(payload) then 1 else 0
  }

  /**
   * The check is made once: what an execution has decided can be delivered for as long as some execution of it has not
   * ended, whatever is cancelled, edited or reopened in between.
   */
  lemma {:induction false} DecisionOutlives(s: State, actions: seq<Action>, payload: Version)
    requires Valid(s, actions) && forall i :: 0 <= i < |actions| ==> !actions[i].Restart?
    requires Ends(actions, payload) < s.payloads[payload]
    ensures Enabled(Run(s, actions), Deliver(payload))
    decreases |actions|
  {
    if actions != [] {
      assert forall i :: 0 <= i < |actions[1..]| ==> actions[1..][i] == actions[i + 1];
      DecisionOutlives(Step(s, actions[0]), actions[1..], payload);
    }
  }

  // --- an edit reaches the platforms -------------------------------------------------------------------------------------

  /** The material has what the patch gave. */
  predicate Carries(p: Patch, m: Material) {
    && (p.title.Some? ==> m.title == p.title.value) && (p.body.Some? ==> m.body == p.body.value)
    && (p.media.Some? ==> m.media == p.media.value) && (p.includeMarket.Some? ==> m.includeMarket == p.includeMarket.value)
  }

  /** No other edit of the item, and no restart. */
  ghost predicate KeepsText(actions: seq<Action>, id: ContentId) {
    forall i :: 0 <= i < |actions| ==>
      !actions[i].Restart? && !(actions[i].Transact? && actions[i].op.Edit? && actions[i].op.id == id)
  }

  lemma {:induction false} TextStays(s: State, actions: seq<Action>, id: ContentId, p: Patch)
    requires Valid(s, actions) && KeepsText(actions, id) && id in s.mem && Carries(p, s.mem[id].material)
    ensures id in Run(s, actions).mem && Carries(p, Run(s, actions).mem[id].material)
    decreases |actions|
  {
    if actions != [] {
      assert forall i :: 0 <= i < |actions[1..]| ==> actions[1..][i] == actions[i + 1];
      TextStays(Step(s, actions[0]), actions[1..], id, p);
    }
  }

  /**
   * Whatever an edit gives, compared with the present item or a stale copy, is in every message that is decided later,
   * up to the next edit of the item or a restart, and at every destination it is delivered to.
   */
  lemma EditIsSent(s: State, op: Operation, ok: bool, actions: seq<Action>, revision: nat, today: int)
    requires op.Edit? && Allowed(s, op) && Valid(Step(s, Transact(op, ok)), actions) && KeepsText(actions, op.id)
    requires Enabled(Run(Step(s, Transact(op, ok)), actions), Decided(op.id, revision, today))
    ensures var before := Run(Step(s, Transact(op, ok)), actions);
            var decided := Step(before, Decided(op.id, revision, today));
            exists m :: Carries(op.patch, m)
                        && decided.payloads == before.payloads + multiset{Version(op.id, revision, m)}
                        && Enabled(decided, Deliver(Version(op.id, revision, m)))
                        && Step(decided, Deliver(Version(op.id, revision, m))).sent == before.sent + [Version(op.id, revision, m)]
  {
    var t := Step(s, Transact(op, ok));
    assert Carries(op.patch, t.mem[op.id].material);
    TextStays(t, actions, op.id, op.patch);
    var u := Run(t, actions);
    var m := u.mem[op.id].material;
    assert Carries(op.patch, m);
    assert Step(u, Decided(op.id, revision, today)).payloads == u.payloads + multiset{Version(op.id, revision, m)};
  }

  // --- the service -----------------------------------------------------------------------------------------------------

  datatype Reply = Done(content: Content) | NotFound | InvalidState | InvalidInput

  datatype Rules = Rules(hasMarkup: string -> bool, isUrl: string -> bool, maxBody: nat, maxTitle: nat)

  predicate GoodText(rules: Rules, m: Material) {
    && m.body != "" && !rules.hasMarkup(m.title) && !rules.hasMarkup(m.body)
    && (m.media.Some? ==> rules.isUrl(m.media.value))
  }

  /** The next revision, without an approval; what the item is for stays. */
  ghost predicate NewRevision(was: Content, now: Content) {
    && now.revision == was.revision + 1 && now.approvedAt.None?
    && now.reportingDay == was.reportingDay && now.nightly == was.nightly
  }

  predicate SameMessage(was: Content, now: Content) {
    && now.material == was.material && now.revision == was.revision
    && now.reportingDay == was.reportingDay && now.nightly == was.nightly
  }

  class ContentService {
    const rules: Rules
    var contents: map<ContentId, Content>

    constructor (rules: Rules)
      ensures this.rules == rules && contents == map[]
    {
      this.rules, contents := rules, map[];
    }

    method Create(id: ContentId, m: Material, reportingDay: Option<int>, nightly: bool) returns (reply: Reply)
      requires id !in contents
      modifies this
      ensures reply.Done? ==>
                && reply.content.material == m && reply.content.revision == 1 && reply.content.status == Draft
                && reply.content.approvedAt.None? && reply.content.scheduledAt.None?
                && reply.content.reportingDay == reportingDay && reply.content.nightly == nightly
      ensures reply == if GoodText(rules, m) && |m.body| <= rules.maxBody && |m.title| <= rules.maxTitle && '\n' !in m.title
                       then Done(Created(m, reportingDay, nightly)) else InvalidInput
      ensures contents == if reply.Done? then old(contents)[id := reply.content] else old(contents)
    {
      if m.body == "" || |m.body| > rules.maxBody { return InvalidInput; }
      if |m.title| > rules.maxTitle || '\n' in m.title { return InvalidInput; }
      if rules.hasMarkup(m.title) || rules.hasMarkup(m.body) { return InvalidInput; }
      if m.media.Some? && !rules.isUrl(m.media.value) { return InvalidInput; }
      var created := Created(m, reportingDay, nightly);
      contents := contents[id := created];
      return Done(created);
    }

    method Edit(id: ContentId, p: Patch) returns (reply: Reply)
      modifies this
      ensures id !in old(contents) ==> reply == NotFound
      ensures id in old(contents) ==>
                var c := old(contents)[id];
                reply == if c.status == Published then InvalidState
                         else if !GoodText(rules, Patched(c.material, p)) then InvalidInput
                         else Done(Edited(c, c, p))
      ensures reply.Done? ==>
                var was, now := old(contents)[id].material, reply.content.material;
                && now.title == (if p.title.None? then was.title else p.title.value)
                && now.body == (if p.body.None? then was.body else p.body.value)
                && now.media == (if p.media.None? then was.media else p.media.value)
                && now.includeMarket == (if p.includeMarket.None? then was.includeMarket else p.includeMarket.value)
                && now.cta == was.cta
      ensures reply.Done? ==>
                var was, now := old(contents)[id], reply.content;
                if now.material == was.material then now == was
                else NewRevision(was, now) && now.status == Draft && now.scheduledAt.None?
      ensures contents == if reply.Done? then old(contents)[id := reply.content] else old(contents)
    {
      if id !in contents { return NotFound; }
      var existing := contents[id];
      if existing.status == Published { return InvalidState; }
      var next := Patched(existing.material, p);
      if next.body == "" || rules.hasMarkup(next.title) || rules.hasMarkup(next.body) { return InvalidInput; }
      if next.media.Some? && !rules.isUrl(next.media.value) { return InvalidInput; }
      var updated := existing.(material := next);
      if next != existing.material {
        updated := updated.(revision := existing.revision + 1, status := Draft, approvedAt := None, scheduledAt := None);
      }
      contents := contents[id := updated];
      return Done(updated);
    }

    method SetCta(id: ContentId, cta: nat) returns (reply: Reply)
      modifies this
      ensures id !in old(contents) ==> reply == NotFound
      ensures id in old(contents) ==>
                var c := old(contents)[id];
                reply == if c.status == Published then InvalidState
                         else if c.material.cta == cta then Done(c) else Done(WithCta(c, cta))
      ensures reply.Done? ==>
                var was, now := old(contents)[id], reply.content;
                if was.material.cta == cta then now == was
                else
                  && now.material == was.material.(cta := cta)
                  && NewRevision(was, now) && now.status == Draft && now.scheduledAt.None?
      ensures contents == if reply.Done? then old(contents)[id := reply.content] else old(contents)
    {
      if id !in contents { return NotFound; }
      var existing := contents[id];
      if existing.status == Published { return InvalidState; }
      if existing.material.cta == cta { return Done(existing); }
      contents := contents[id := WithCta(existing, cta)];
      return Done(contents[id]);
    }

    method ApproveContent(id: ContentId, now: int) returns (reply: Reply)
      modifies this
      ensures id !in old(contents) ==> reply == NotFound
      ensures id in old(contents) ==>
                reply == if old(contents)[id].status == Published || old(contents)[id].status == Cancelled then InvalidState
                         else Done(Approve(old(contents)[id], now))
      ensures reply.Done? ==>
                && reply.content.status == Approved && reply.content.approvedAt == Some(now)
                && SameMessage(old(contents)[id], reply.content) && reply.content.scheduledAt == old(contents)[id].scheduledAt
      ensures contents == if reply.Done? then old(contents)[id := reply.content] else old(contents)
    {
      if id !in contents { return NotFound; }
      if contents[id].status == Published || contents[id].status == Cancelled { return InvalidState; }
      contents := contents[id := contents[id].(status := Approved, approvedAt := Some(now))];
      return Done(contents[id]);
    }

    /** A FAILED item can be scheduled, approved or not; the engine still refuses what was never approved. */
    method ScheduleContent(id: ContentId, at: Option<int>) returns (reply: Reply)
      modifies this
      ensures id !in old(contents) ==> reply == NotFound
      ensures id in old(contents) ==>
                var c := old(contents)[id];
                reply == if c.status == Draft || c.status == Cancelled || c.status == Published then InvalidState
                         else if at.None? then InvalidInput else Done(Schedule(c, at.value))
      ensures contents == if reply.Done? then old(contents)[id := reply.content] else old(contents)
      ensures reply.Done? ==>
                && reply.content.status == Scheduled && reply.content.scheduledAt == at
                && SameMessage(old(contents)[id], reply.content) && reply.content.approvedAt == old(contents)[id].approvedAt
      ensures reply.Done? && old(contents)[id].approvedAt.None? ==>
                forall revision, today :: Decide(contents[id], revision, today).Refuse?
    {
      if id !in contents { return NotFound; }
      var existing := contents[id];
      if existing.status == Draft { return InvalidState; }
      if existing.status == Cancelled || existing.status == Published { return InvalidState; }
      if at.None? { return InvalidInput; }
      contents := contents[id := existing.(status := Scheduled, scheduledAt := at)];
      return Done(contents[id]);
    }

    /** A cancelled item is not rendered, nor at its revision once it is reopened; what can revive it is above. */
    method CancelContent(id: ContentId) returns (reply: Reply)
      modifies this
      ensures id !in old(contents) ==> reply == NotFound
      ensures id in old(contents) ==>
                reply == if old(contents)[id].status == Published then InvalidState else Done(Cancel(old(contents)[id]))
      ensures contents == if reply.Done? then old(contents)[id := reply.content] else old(contents)
      ensures reply.Done? ==>
                && reply.content.status == Cancelled && reply.content.scheduledAt.None?
                && SameMessage(old(contents)[id], reply.content) && reply.content.approvedAt == old(contents)[id].approvedAt
      ensures reply.Done? ==>
                && (forall revision, today :: Decide(contents[id], revision, today).Refuse?)
                && (forall today :: Decide(Reopen(contents[id]), contents[id].revision, today).Refuse?)
    {
      if id !in contents { return NotFound; }
      if contents[id].status == Published { return InvalidState; }
      contents := contents[id := contents[id].(status := Cancelled, scheduledAt := None)];
      return Done(contents[id]);
    }

    method ReopenContent(id: ContentId) returns (reply: Reply)
      modifies this
      ensures id !in old(contents) ==> reply == NotFound
      ensures id in old(contents) ==>
                reply == if old(contents)[id].status != Cancelled then InvalidState else Done(Reopen(old(contents)[id]))
      ensures reply.Done? ==>
                && reply.content.status == Draft && NewRevision(old(contents)[id], reply.content)
                && reply.content.material == old(contents)[id].material
                && reply.content.scheduledAt == old(contents)[id].scheduledAt
      ensures contents == if reply.Done? then old(contents)[id := reply.content] else old(contents)
    {
      if id !in contents { return NotFound; }
      if contents[id].status != Cancelled { return InvalidState; }
      contents := contents[id := contents[id].(status := Draft, revision := contents[id].revision + 1, approvedAt := None)];
      return Done(contents[id]);
    }

    method MarkFailed(id: ContentId)
      modifies this
      ensures contents == if id in old(contents) && old(contents)[id].status != Published
                          then old(contents)[id := old(contents)[id].(status := Failed)] else old(contents)
    {
      if id in contents {
        var current := contents[id];
        contents := contents[id := current.(status := if current.status == Published then Published else Failed)];
      }
    }
  }
}
