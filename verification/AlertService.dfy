/** The alert store with its two indexes, the alert service on top of it, and the evaluation of one symbol. */
module AlertService {
  import opened Common
  import opened AlertModel
  import AlertEvaluator

  datatype Failure = LimitReached | Duplicate | AlertNotFound | InvalidState | InvalidTarget | NoValidPrice
  datatype Reply = Done(alert: Alert) | Fail(reason: Failure)

  /** The scan an index entry must agree with. */
  function ActiveOf(alerts: map<AlertId, Alert>, symbol: Symbol): set<AlertId> {
    set id | id in alerts && alerts[id].target.symbol == symbol && alerts[id].status == Active
  }

  function OfUser(alerts: map<AlertId, Alert>, user: UserId): set<AlertId> {
    set id | id in alerts && alerts[id].user == user
  }

  /** An index has no empty entries and every entry is the set `scan` finds. */
  ghost predicate Entry<K>(index: map<K, set<AlertId>>, key: K, scan: set<AlertId>) {
    if key in index then index[key] == scan && scan != {} else scan == {}
  }

  function Lookup<K>(index: map<K, set<AlertId>>, key: K): set<AlertId> {
    if key in index then index[key] else {}
  }

  /** Exactly the alerts `ids` became TRIGGERED, each with a fresh record at the price `at`. */
  ghost predicate TriggeredExactly(was: Book, now: Book, ids: set<AlertId>, at: real) {
    && now.alerts.Keys == was.alerts.Keys && now.deliveries.Keys == was.deliveries.Keys + ids
    && (forall id :: id in was.alerts ==>
          now.alerts[id] == if id in ids then was.alerts[id].(status := Triggered) else was.alerts[id])
    && forall id :: id in now.deliveries ==>
         now.deliveries[id] == if id in ids then Delivery(Waiting, at, 0, false) else was.deliveries[id]
  }

  lemma TriggerOne(was: Book, now: Book, ids: set<AlertId>, at: real, id: AlertId)
    requires TriggeredExactly(was, now, ids, at) && Saves(now, Op.Reserve(id, at)) && id !in ids
    ensures TriggeredExactly(was, Apply(now, Op.Reserve(id, at)), ids + {id}, at)
  {
  }

  /** The alerts an observation fires. */
  function Firing(book: Book, o: AlertEvaluator.Observation): set<AlertId> {
    set id | id in book.alerts && AlertEvaluator.Fires(book.alerts[id], o)
  }

  /** The alerts an observation is to trigger. */
  function Met(book: Book, o: AlertEvaluator.Observation): (ids: set<AlertId>)
    ensures ids == Firing(book, o)
  {
    EachFiresExactly(book, o);
    set id | id in book.alerts && AlertEvaluator.Meets(book.alerts[id], o)
  }

  lemma EachFiresExactly(book: Book, o: AlertEvaluator.Observation)
    ensures forall id :: id in book.alerts ==>
              (AlertEvaluator.Fires(book.alerts[id], o) <==> AlertEvaluator.Meets(book.alerts[id], o))
  {
    forall id | id in book.alerts
      ensures AlertEvaluator.Fires(book.alerts[id], o) <==> AlertEvaluator.Meets(book.alerts[id], o)
    {
      AlertEvaluator.FiresExactly(book.alerts[id], o);
    }
  }

  ghost predicate NoEarlyRecord(book: Book) {
    forall id :: id in book.alerts && book.alerts[id].status == Active ==> id !in book.deliveries
  }

  lemma NothingTriggered(book: Book, at: real)
    ensures TriggeredExactly(book, book, {}, at)
  {
  }

  /** The firing alerts already dealt with. */
  function Settled(book: Book, o: AlertEvaluator.Observation, rest: set<AlertId>): set<AlertId> {
    Firing(book, o) - rest
  }

  lemma SettledNext(book: Book, o: AlertEvaluator.Observation, rest: set<AlertId>, id: AlertId)
    requires id in rest
    ensures id !in Settled(book, o, rest)
    ensures Settled(book, o, rest - {id}) == Settled(book, o, rest) + if id in Firing(book, o) then {id} else {}
    ensures |Settled(book, o, rest - {id})| == |Settled(book, o, rest)| + if id in Firing(book, o) then 1 else 0
  {
    if id in Firing(book, o) {
      assert Settled(book, o, rest - {id}) == Settled(book, o, rest) + {id};
    } else {
      assert Settled(book, o, rest - {id}) == Settled(book, o, rest);
    }
  }

  lemma FiringSplit(book: Book, o: AlertEvaluator.Observation, candidates: set<AlertId>)
    requires candidates == ActiveOf(book.alerts, o.symbol)
    ensures Settled(book, o, candidates) == {} && Settled(book, o, {}) == Firing(book, o)
  {
  }

  predicate IsPercent(kind: Kind) {
    kind == PercentIncrease || kind == PercentDecrease
  }

  function HeldOutside(book: Book, user: UserId, rest: set<AlertId>): set<AlertId> {
    Held(book, user) - rest
  }

  lemma HeldNext(book: Book, user: UserId, rest: set<AlertId>, id: AlertId)
    requires id in rest
    ensures |HeldOutside(book, user, rest - {id})| == |HeldOutside(book, user, rest)| + if id in Held(book, user) then 1 else 0
  {
    if id in Held(book, user) {
      assert HeldOutside(book, user, rest - {id}) == HeldOutside(book, user, rest) + {id};
    } else {
      assert HeldOutside(book, user, rest - {id}) == HeldOutside(book, user, rest);
    }
  }

  class AlertService {
    var alerts: map<AlertId, Alert>
    var deliveries: map<AlertId, Delivery>
    var alertsByUser: map<UserId, set<AlertId>>
    var activeBySymbol: map<Symbol, set<AlertId>>
    var disk: Book

    function Now(): Book
      reads this
    {
      Book(alerts, deliveries)
    }

    ghost predicate Indexed()
      reads this
    {
      && (forall symbol :: Entry(activeBySymbol, symbol, ActiveOf(alerts, symbol)))
      && forall user :: Entry(alertsByUser, user, OfUser(alerts, user))
    }

    /** Loading the file row by row. */
    constructor (file: Book)
      ensures Now() == file && disk == file && Indexed()
    {
      alerts, deliveries, alertsByUser, activeBySymbol, disk := map[], map[], map[], map[], file;
      new;
      var rest := file.alerts.Keys;
      while rest != {}
        invariant rest <= file.alerts.Keys && alerts == file.alerts - rest && Indexed()
        invariant deliveries == map[] && disk == file
        decreases |rest|
      {
        var id :| id in rest;
        SaveAlert(id, file.alerts[id]);
        rest := rest - {id};
      }
      assert alerts == file.alerts;
      deliveries := file.deliveries;
    }

    // --- the store -----------------------------------------------------------------------------------------------

    /** One row: its id joins the sets it belongs to and leaves the set of ACTIVE ids otherwise. */
    method SaveAlert(id: AlertId, alert: Alert)
      requires Indexed()
      requires id in alerts ==> alerts[id].user == alert.user && alerts[id].target.symbol == alert.target.symbol
      modifies this`alerts, this`alertsByUser, this`activeBySymbol
      ensures alerts == old(alerts)[id := alert] && Indexed()
    {
      alerts := alerts[id := alert];
      alertsByUser := alertsByUser[alert.user := Lookup(alertsByUser, alert.user) + {id}];
      var symbol := alert.target.symbol;
      var active := if alert.status == Active then Lookup(activeBySymbol, symbol) + {id}
                    else Lookup(activeBySymbol, symbol) - {id};
      activeBySymbol := if active == {} then activeBySymbol - {symbol} else activeBySymbol[symbol := active];
      forall s ensures Entry(activeBySymbol, s, ActiveOf(alerts, s)) {
        assert Entry(old(activeBySymbol), s, ActiveOf(old(alerts), s));
        if s != symbol {
          assert ActiveOf(alerts, s) == ActiveOf(old(alerts), s);
        } else {
          assert active == ActiveOf(alerts, s);
        }
      }
      forall u ensures Entry(alertsByUser, u, OfUser(alerts, u)) {
        assert Entry(old(alertsByUser), u, OfUser(old(alerts), u));
        if u != alert.user {
          assert OfUser(alerts, u) == OfUser(old(alerts), u);
        } else {
          assert alertsByUser[u] == OfUser(alerts, u);
        }
      }
    }

    /** The indexed query equals the full scan. */
    method ListActiveBySymbol(symbol: Symbol) returns (found: set<AlertId>)
      requires Indexed()
      ensures found == ActiveOf(alerts, symbol)
      ensures forall id :: id in found <==> id in alerts && alerts[id].target.symbol == symbol && alerts[id].status == Active
    {
      assert Entry(activeBySymbol, symbol, ActiveOf(alerts, symbol));
      if symbol !in activeBySymbol { return {}; }
      return activeBySymbol[symbol];
    }

    method ListAlertsByUser(user: UserId) returns (found: set<AlertId>)
      requires Indexed()
      ensures found == OfUser(alerts, user)
      ensures forall id :: id in found <==> id in alerts && alerts[id].user == user
    {
      assert Entry(alertsByUser, user, OfUser(alerts, user));
      if user !in alertsByUser { return {}; }
      return alertsByUser[user];
    }

    /** This row, and no other, has been written. */
    predicate Rewritten(was: map<AlertId, Alert>, id: AlertId, row: Alert)
      reads this
    {
      id in was && alerts == was[id := row]
    }

    /** The end of a transaction that saved something; a failed write is only logged. */
    method Persist(writes: bool)
      modifies this`disk
      ensures disk == if writes then Now() else old(disk)
    {
      if writes { disk := Now(); }
    }

    method CountForCapacity(user: UserId) returns (n: nat)
      ensures n == |Held(Now(), user)|
      ensures n == |set id | id in alerts && alerts[id].user == user
                             && (alerts[id].status == Active || alerts[id].status == Disabled)|
    {
      n := 0;
      var rest := alerts.Keys;
      assert HeldOutside(Now(), user, rest) == {};
      while rest != {}
        invariant rest <= alerts.Keys && n == |HeldOutside(Now(), user, rest)|
        decreases |rest|
      {
        var id :| id in rest;
        HeldNext(Now(), user, rest, id);
        rest := rest - {id};
        if alerts[id].user == user && CountsTowardsCapacity(alerts[id].status) {
          n := n + 1;
        }
      }
      assert HeldOutside(Now(), user, {}) == Held(Now(), user);
      assert Held(Now(), user) ==
             set id | id in alerts && alerts[id].user == user
                      && (alerts[id].status == Active || alerts[id].status == Disabled);
    }

    method HasDuplicate(user: UserId, target: Target, except: AlertId) returns (found: bool)
      ensures found <==> Taken(Now(), user, target, except)
      ensures found <==> exists id :: id in alerts && alerts[id].user == user && alerts[id].target == target && id != except
                                      && (alerts[id].status == Active || alerts[id].status == Disabled)
    {
      found := false;
      var rest := alerts.Keys;
      while rest != {} && !found
        invariant rest <= alerts.Keys
        invariant found ==> Taken(Now(), user, target, except)
        invariant !found ==> forall id :: id in Held(Now(), user) && id != except && alerts[id].target == target ==> id in rest
        decreases |rest|
      {
        var id :| id in rest;
        rest := rest - {id};
        if id != except && alerts[id].user == user && CountsTowardsCapacity(alerts[id].status) && alerts[id].target == target {
          assert id in Held(Now(), user);
          found := true;
        }
      }
    }

    // --- the commands ----------------------------------------------------------------------------------------------

    method Create(id: AlertId, alert: Alert, limit: nat, writes: bool) returns (reply: Reply)
      requires Indexed() && id !in alerts && alert.status == Active
      modifies this
      ensures Indexed() && Now() == Apply(old(Now()), Op.Create(id, alert, limit))
      ensures reply == if old(|Held(Now(), alert.user)|) >= limit then Fail(LimitReached)
                       else if Taken(old(Now()), alert.user, alert.target, id) then Fail(Duplicate) else Done(alert)
      ensures alerts == (if reply.Done? then old(alerts)[id := alert] else old(alerts)) && deliveries == old(deliveries)
      ensures disk == if reply.Done? && writes then Now() else old(disk)
    {
      var held := CountForCapacity(alert.user);
      if held >= limit { return Fail(LimitReached); }
      var duplicate := HasDuplicate(alert.user, alert.target, id);
      if duplicate { return Fail(Duplicate); }
      SaveAlert(id, alert);
      Persist(writes);
      return Done(alert);
    }

    /** `price` is the latest usable market price; a percentage alert restarts from it. */
    method Enable(id: AlertId, user: UserId, price: Option<real>, writes: bool) returns (reply: Reply)
      requires Indexed()
      modifies this
      ensures Indexed() && alerts.Keys == old(alerts).Keys
      ensures reply == if !Owned(old(Now()), id, user) then Fail(AlertNotFound)
                       else if old(alerts[id]).status == Triggered then Fail(InvalidState)
                       else if old(alerts[id]).status == Disabled && IsPercent(old(alerts[id]).target.kind) && price.None?
                       then Fail(NoValidPrice) else Done(alerts[id])
      ensures if reply.Done? && old(alerts[id]).status == Disabled
              then && Now() == Apply(old(Now()), Op.Enable(id, user, if IsPercent(old(alerts[id]).target.kind) then price
                                                                     else old(alerts[id]).baseline))
                   && Rewritten(old(alerts), id, old(alerts[id]).(status := Active, baseline := alerts[id].baseline))
                   && alerts[id].baseline == (if IsPercent(old(alerts[id]).target.kind) then price else old(alerts[id]).baseline)
                   && deliveries == old(deliveries) && disk == (if writes then Now() else old(disk))
              else Now() == old(Now()) && disk == old(disk)
    {
      if id !in alerts || alerts[id].user != user || alerts[id].status == Deleted { return Fail(AlertNotFound); }
      var alert := alerts[id];
      if alert.status == Active { return Done(alert); }
      if alert.status != Disabled { return Fail(InvalidState); }
      var baseline := alert.baseline;
      if alert.target.kind == PercentIncrease || alert.target.kind == PercentDecrease {
        baseline := price;
        if baseline.None? { return Fail(NoValidPrice); }
      }
      var updated := alert.(status := Active, baseline := baseline);
      SaveAlert(id, updated);
      Persist(writes);
      return Done(updated);
    }

    method Disable(id: AlertId, user: UserId, writes: bool) returns (reply: Reply)
      requires Indexed()
      modifies this
      ensures Indexed() && Now() == Apply(old(Now()), Op.Disable(id, user))
      ensures reply == if !Owned(old(Now()), id, user) then Fail(AlertNotFound)
                       else if old(alerts[id]).status == Triggered then Fail(InvalidState) else Done(alerts[id])
      ensures if reply.Done? then Rewritten(old(alerts), id, old(alerts[id]).(status := Disabled)) else alerts == old(alerts)
      ensures deliveries == old(deliveries)
      ensures disk == if Saves(old(Now()), Op.Disable(id, user)) && writes then Now() else old(disk)
    {
      if id !in alerts || alerts[id].user != user || alerts[id].status == Deleted { return Fail(AlertNotFound); }
      var alert := alerts[id];
      if alert.status == Disabled { return Done(alert); }
      if alert.status != Active { return Fail(InvalidState); }
      SaveAlert(id, alert.(status := Disabled));
      Persist(writes);
      return Done(alerts[id]);
    }

    /** The target of one kind changes, the status does not; `valid` is the range check of the symbol or percent. */
    method Edit(id: AlertId, user: UserId, input: Option<real>, valid: bool, price: Option<real>, writes: bool)
        returns (reply: Reply)
      requires Indexed()
      modifies this
      ensures Indexed() && alerts.Keys == old(alerts).Keys
      ensures !Owned(old(Now()), id, user) ==> reply == Fail(AlertNotFound)
      ensures Owned(old(Now()), id, user) ==>
                var was := old(alerts[id]);
                var target := if IsPercent(was.target.kind) then was.target.(percent := input) else was.target.(price := input);
                reply == if was.status == Triggered then Fail(InvalidState)
                         else if input.None? || !valid then Fail(InvalidTarget)
                         else if IsPercent(was.target.kind) && price.None? then Fail(NoValidPrice)
                         else if Taken(old(Now()), user, target, id) then Fail(Duplicate)
                         else Done(was.(target := target, baseline := if IsPercent(was.target.kind) then price else was.baseline))
      ensures reply.Done? ==>
                && Now() == Apply(old(Now()), Op.Edit(id, user, reply.alert.target.price, reply.alert.target.percent,
                                                      reply.alert.baseline))
                && Rewritten(old(alerts), id, reply.alert) && deliveries == old(deliveries)
                && disk == if writes then Now() else old(disk)
      ensures reply.Fail? ==> Now() == old(Now()) && disk == old(disk)
    {
      if id !in alerts || alerts[id].user != user || alerts[id].status == Deleted { return Fail(AlertNotFound); }
      var alert := alerts[id];
      if alert.status == Triggered { return Fail(InvalidState); }
      if input.None? || !valid { return Fail(InvalidTarget); }
      var target, baseline := alert.target, alert.baseline;
      if alert.target.kind == PercentIncrease || alert.target.kind == PercentDecrease {
        target := target.(percent := input);
        baseline := price;
        if baseline.None? { return Fail(NoValidPrice); }
      } else {
        target := target.(price := input);
      }
      var duplicate := HasDuplicate(user, target, id);
      if duplicate { return Fail(Duplicate); }
      SaveAlert(id, alert.(target := target, baseline := baseline));
      Persist(writes);
      return Done(alerts[id]);
    }

    method Remove(id: AlertId, user: UserId, writes: bool) returns (reply: Reply)
      requires Indexed()
      modifies this
      ensures Indexed() && Now() == Apply(old(Now()), Op.Remove(id, user))
      ensures reply == if Owned(old(Now()), id, user) then Done(alerts[id]) else Fail(AlertNotFound)
      ensures reply.Done? <==> id in old(alerts) && old(alerts[id]).user == user && old(alerts[id]).status != Deleted
      ensures if reply.Done? then Rewritten(old(alerts), id, old(alerts[id]).(status := Deleted)) else alerts == old(alerts)
      ensures deliveries == old(deliveries)
      ensures disk == if reply.Done? && writes then Now() else old(disk)
    {
      if id !in alerts || alerts[id].user != user || alerts[id].status == Deleted { return Fail(AlertNotFound); }
      SaveAlert(id, alerts[id].(status := Deleted));
      Persist(writes);
      return Done(alerts[id]);
    }

    method ReserveTrigger(id: AlertId, at: real, writes: bool) returns (reserved: bool)
      requires Indexed()
      modifies this
      ensures Indexed() && Now() == Apply(old(Now()), Op.Reserve(id, at))
      ensures reserved == Saves(old(Now()), Op.Reserve(id, at))
      ensures reserved <==> id in old(alerts) && old(alerts[id]).status == Active && id !in old(deliveries)
      ensures if reserved then Rewritten(old(alerts), id, old(alerts[id]).(status := Triggered)) else alerts == old(alerts)
      ensures deliveries == if reserved then old(deliveries)[id := Delivery(Waiting, at, 0, false)] else old(deliveries)
      ensures disk == if reserved && writes then Now() else old(disk)
    {
      if id !in alerts || alerts[id].status != Active { return false; }
      if id in deliveries { return false; }
      SaveAlert(id, alerts[id].(status := Triggered));
      deliveries := deliveries[id := Delivery(Waiting, at, 0, false)];
      Persist(writes);
      return true;
    }

    // --- the engine ----------------------------------------------------------------------------------------------------

    method TriggerCandidate(id: AlertId, o: AlertEvaluator.Observation, writes: bool, ghost was: Book,
                            ghost done: set<AlertId>)
        returns (fired: bool)
      requires Indexed() && TriggeredExactly(was, Now(), done, o.current)
      requires NoEarlyRecord(was) && id in ActiveOf(was.alerts, o.symbol) && id !in done
      modifies this
      ensures Indexed() && (fired <==> id in Firing(was, o))
      ensures TriggeredExactly(was, Now(), done + if id in Firing(was, o) then {id} else {}, o.current)
    {
      assert done + {} == done;
      fired := AlertEvaluator.Fires(alerts[id], o);
      if fired {
        TriggerOne(was, Now(), done, o.current, id);
        fired := ReserveTrigger(id, o.current, writes);
      }
    }

    /**
     * One accepted price: exactly the alerts it fires become TRIGGERED with a fresh record at that price, and
     * nothing else changes. The precondition holds in every reachable state.
     */
    method EvaluateSymbol(o: AlertEvaluator.Observation, writes: AlertId -> bool) returns (reserved: nat)
      requires Indexed() && NoEarlyRecord(Now())
      modifies this
      ensures Indexed()
      ensures TriggeredExactly(old(Now()), Now(), Met(old(Now()), o), o.current)
      ensures reserved == |Met(old(Now()), o)|
    {
      var candidates := ListActiveBySymbol(o.symbol);
      ghost var was := Now();
      FiringSplit(was, o, candidates);
      NothingTriggered(was, o.current);
      reserved := 0;
      var rest := candidates;
      while rest != {}
        invariant rest <= candidates && reserved == |Settled(was, o, rest)|
        invariant Indexed() && TriggeredExactly(was, Now(), Settled(was, o, rest), o.current)
        decreases |rest|
      {
        var id :| id in rest;
        SettledNext(was, o, rest, id);
        var fired := TriggerCandidate(id, o, writes(id), was, Settled(was, o, rest));
        rest := rest - {id};
        if fired { reserved := reserved + 1; }
      }
    }
  }
}
