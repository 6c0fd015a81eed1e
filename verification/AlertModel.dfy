/** One-shot alerts: the stored records and each transaction of the alert service as a function on them. */
module AlertModel {
  import opened Common

  type AlertId = nat
  type UserId = string
  type Symbol = string

  datatype Kind = PriceAbove | PriceBelow | PercentIncrease | PercentDecrease
  datatype Direction = Up | Down

  /** What `isSameTarget` compares. */
  datatype Target = Target(symbol: Symbol, kind: Kind, direction: Option<Direction>, price: Option<real>,
                           percent: Option<real>)

  datatype AlertStatus = Active | Disabled | Triggered | Deleted
  datatype Alert = Alert(user: UserId, target: Target, status: AlertStatus, baseline: Option<real>)

  datatype DeliveryStatus = Waiting | Delivered | Undelivered
  datatype Delivery = Delivery(status: DeliveryStatus, price: real, attempts: nat, failed: bool)

  datatype Book = Book(alerts: map<AlertId, Alert>, deliveries: map<AlertId, Delivery>)

  predicate CountsTowardsCapacity(status: AlertStatus) {
    status == Active || status == Disabled
  }

  /** The alerts that use up a user's capacity. */
  function Held(book: Book, user: UserId): set<AlertId> {
    set id | id in book.alerts && book.alerts[id].user == user && CountsTowardsCapacity(book.alerts[id].status)
  }

  predicate Taken(book: Book, user: UserId, target: Target, except: AlertId) {
    exists id :: id in Held(book, user) && id != except && book.alerts[id].target == target
  }

  /** Whether user `user` owns `id` and it has not been deleted; a foreign alert looks like a missing one. */
  predicate Owned(book: Book, id: AlertId, user: UserId) {
    id in book.alerts && book.alerts[id].user == user && book.alerts[id].status != Deleted
  }

  /** The transactions. `limit` and `baseline` were read before the critical section was entered. */
  datatype Op =
    | Create(id: AlertId, alert: Alert, limit: nat)
    | Enable(id: AlertId, user: UserId, baseline: Option<real>)
    | Disable(id: AlertId, user: UserId)
    | Edit(id: AlertId, user: UserId, price: Option<real>, percent: Option<real>, baseline: Option<real>)
    | Remove(id: AlertId, user: UserId)
    | Reserve(id: AlertId, at: real)
    | BeginAttempt(id: AlertId)
    | MarkSent(id: AlertId)
    | RecordFailure(id: AlertId)
    | MarkUndeliverable(id: AlertId, failed: bool)

  predicate Saves(book: Book, op: Op) {
    match op
    case Create(id, alert, limit) => |Held(book, alert.user)| < limit && !Taken(book, alert.user, alert.target, id)
    case Enable(id, user, _) => Owned(book, id, user) && book.alerts[id].status == Disabled
    case Disable(id, user) => Owned(book, id, user) && book.alerts[id].status == Active
    case Edit(id, user, price, percent, _) =>
      && Owned(book, id, user) && book.alerts[id].status != Triggered
      && !Taken(book, user, book.alerts[id].target.(price := price, percent := percent), id)
    case Remove(id, user) => Owned(book, id, user)
    case Reserve(id, _) => id in book.alerts && book.alerts[id].status == Active && id !in book.deliveries
    case BeginAttempt(id) => id in book.deliveries && book.deliveries[id].status == Waiting
    case MarkSent(id) => id in book.deliveries
    case RecordFailure(id) => id in book.deliveries
    case MarkUndeliverable(id, _) => id in book.deliveries
  }

  function SetAlert(book: Book, id: AlertId, alert: Alert): Book {
    book.(alerts := book.alerts[id := alert])
  }

  function SetDelivery(book: Book, id: AlertId, delivery: Delivery): Book {
    book.(deliveries := book.deliveries[id := delivery])
  }

  function Saved(book: Book, op: Op): Book
    requires Saves(book, op)
  {
    match op
    case Create(id, alert, _) => SetAlert(book, id, alert)
    case Enable(id, _, baseline) => SetAlert(book, id, book.alerts[id].(status := Active, baseline := baseline))
    case Disable(id, _) => SetAlert(book, id, book.alerts[id].(status := Disabled))
    case Edit(id, _, price, percent, baseline) =>
      SetAlert(book, id, book.alerts[id].(target := book.alerts[id].target.(price := price, percent := percent),
                                          baseline := baseline))
    case Remove(id, _) => SetAlert(book, id, book.alerts[id].(status := Deleted))
    case Reserve(id, at) =>
      SetDelivery(SetAlert(book, id, book.alerts[id].(status := Triggered)), id, Delivery(Waiting, at, 0, false))
    case BeginAttempt(id) => SetDelivery(book, id, book.deliveries[id].(attempts := book.deliveries[id].attempts + 1))
    case MarkSent(id) => SetDelivery(book, id, book.deliveries[id].(status := Delivered, failed := false))
    case RecordFailure(id) => SetDelivery(book, id, book.deliveries[id].(failed := true))
    case MarkUndeliverable(id, failed) =>
      SetDelivery(book, id, book.deliveries[id].(status := Undelivered, failed := failed))
  }

  function Apply(book: Book, op: Op): Book {
    if Saves(book, op) then Saved(book, op) else book
  }
}
