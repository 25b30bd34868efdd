/** The `Order` aggregate: its status machine and the queue of domain events
    it holds until they are published. */
module Orders {
  import opened Wrappers
  import opened JavaLang
  import opened OrderItems
  import opened OrderEvents

  datatype OrderStatus = Created | Pending | Confirmed | Completed | Cancelled

  /** `OrderStatus.name()`. */
  function StatusName(s: OrderStatus): string {
    match s
    case Created => "CREATED"
    case Pending => "PENDING"
    case Confirmed => "CONFIRMED"
    case Completed => "COMPLETED"
    case Cancelled => "CANCELLED"
  }

  /** `OrderStatus.valueOf`: `None` where it throws. */
  function StatusOf(name: string): (r: Option<OrderStatus>)
    ensures r.Some? ==> StatusName(r.value) == name
  {
    if name == "CREATED" then Some(Created)
    else if name == "PENDING" then Some(Pending)
    else if name == "CONFIRMED" then Some(Confirmed)
    else if name == "COMPLETED" then Some(Completed)
    else if name == "CANCELLED" then Some(Cancelled)
    else None
  }

  /** Every status is read back from its name. */
  lemma StatusNameRoundTrip(s: OrderStatus)
    ensures StatusOf(StatusName(s)) == Some(s)
  {
  }

  /** The reason given where the source calls a `cancel` without one, which
      `Order` does not declare. */
  const UnstatedReason: string := ""

  /** The part of an order its methods change. */
  datatype OrderState = OrderState(status: OrderStatus, events: seq<DomainEvent>)

  function MarkPendingRejected(): Error {
    Error(InvalidOrderState, "Order can only be marked pending from CREATED state")
  }

  function ConfirmRejected(s: OrderStatus): Error {
    Error(InvalidOrderState, "Order can only be confirmed from CREATED state, current: " + StatusName(s))
  }

  /** `markPending`: only from CREATED. */
  function MarkPendingOn(st: OrderState): (r: Result<OrderState, Error>)
    ensures r.Success? <==> st.status == Created
    ensures r.Success? ==> r.value == OrderState(Pending, st.events)
    ensures r.Failure? ==> r.error == MarkPendingRejected()
  {
    if st.status != Created then Failure(MarkPendingRejected()) else Success(st.(status := Pending))
  }

  /** `confirm`: only from CREATED, so not from PENDING either. */
  function ConfirmOn(st: OrderState): (r: Result<OrderState, Error>)
    ensures r.Success? <==> st.status == Created
    ensures r.Success? ==> r.value == OrderState(Confirmed, st.events)
    ensures r.Failure? ==> r.error == ConfirmRejected(st.status)
  {
    if st.status != Created then Failure(ConfirmRejected(st.status)) else Success(st.(status := Confirmed))
  }

  /** `cancel`: from any status but CANCELLED and COMPLETED, queueing one
      `OrderCancelledEvent`. */
  function CancelOn(orderId: Uuid, st: OrderState, reason: string): (r: Result<OrderState, Error>)
    ensures r.Success? <==> st.status !in {Cancelled, Completed}
    ensures r.Success? ==> r.value == OrderState(Cancelled, st.events + [OrderCancelled(orderId, reason)])
    ensures st.status == Cancelled ==> r == Failure(Error(InvalidOrderState, "Order is already cancelled"))
    ensures st.status == Completed ==> r == Failure(Error(InvalidOrderState, "Cannot cancel a completed order"))
  {
    if st.status == Cancelled then Failure(Error(InvalidOrderState, "Order is already cancelled"))
    else if st.status == Completed then Failure(Error(InvalidOrderState, "Cannot cancel a completed order"))
    else Success(OrderState(Cancelled, st.events + [OrderCancelled(orderId, reason)]))
  }

  /** `cancelIfNotAlreadyCancelled`: `cancel`, or nothing at all from
      CANCELLED and COMPLETED; it never throws. */
  function CancelIfNotCancelledOn(orderId: Uuid, st: OrderState, reason: string): (r: OrderState)
    ensures st.status in {Cancelled, Completed} ==> r == st
    ensures st.status !in {Cancelled, Completed} ==> Success(r) == CancelOn(orderId, st, reason)
  {
    if st.status == Cancelled || st.status == Completed then st
    else CancelOn(orderId, st, reason).value
  }

  /** A second call adds nothing: two calls leave the state of one, with its
      single event. */
  lemma CancelIfNotCancelledIdempotent(orderId: Uuid, st: OrderState, reason: string, again: string)
    ensures var once := CancelIfNotCancelledOn(orderId, st, reason);
      CancelIfNotCancelledOn(orderId, once, again) == once
      && |once.events| <= |st.events| + 1
  {
  }

  /** The calls that change an order's status or its queue. */
  datatype Transition =
    | MarkPending
    | Confirm
    | Cancel(reason: string)
    | CancelIfNotCancelled(reason: string)
    | ClearEvents

  /** One call on an order; a call that throws leaves it as it was. */
  function Fire(orderId: Uuid, st: OrderState, t: Transition): OrderState {
    match t
    case MarkPending => var r := MarkPendingOn(st); if r.Success? then r.value else st
    case Confirm => var r := ConfirmOn(st); if r.Success? then r.value else st
    case Cancel(reason) => var r := CancelOn(orderId, st, reason); if r.Success? then r.value else st
    case CancelIfNotCancelled(reason) => CancelIfNotCancelledOn(orderId, st, reason)
    case ClearEvents => st.(events := [])
  }

  /** A sequence of calls, in order. */
  function FireAll(orderId: Uuid, st: OrderState, ts: seq<Transition>): OrderState
    decreases |ts|
  {
    if ts == [] then st else FireAll(orderId, Fire(orderId, st, ts[0]), ts[1..])
  }

  /** What holds of every order from its construction on: nothing ever sets
      COMPLETED, at most one event is queued, and only a cancelled order has
      one. */
  ghost predicate Reachable(st: OrderState) {
    st.status != Completed && |st.events| <= 1 && (st.events != [] ==> st.status == Cancelled)
  }

  lemma {:induction false} FireAllReachable(orderId: Uuid, st: OrderState, ts: seq<Transition>)
    requires Reachable(st)
    ensures Reachable(FireAll(orderId, st, ts))
    decreases |ts|
  {
    if ts != [] {
      FireAllReachable(orderId, Fire(orderId, st, ts[0]), ts[1..]);
    }
  }

  /** From a new order, no sequence of calls reaches COMPLETED, and at most one
      `OrderCancelledEvent` is ever queued. */
  lemma CompletedUnreachable(orderId: Uuid, ts: seq<Transition>)
    ensures var st := FireAll(orderId, OrderState(Created, []), ts);
      st.status != Completed && |st.events| <= 1 && (st.events != [] ==> st.status == Cancelled)
  {
    FireAllReachable(orderId, OrderState(Created, []), ts);
  }

  /** CANCELLED is final: no call leaves it. */
  lemma {:induction false} CancelledAbsorbing(orderId: Uuid, st: OrderState, ts: seq<Transition>)
    requires st.status == Cancelled
    ensures FireAll(orderId, st, ts).status == Cancelled
    decreases |ts|
  {
    if ts != [] {
      CancelledAbsorbing(orderId, Fire(orderId, st, ts[0]), ts[1..]);
    }
  }

  /** The outcome of a `void` method that throws `r.error` or leaves the order
      in `r.value`. */
  predicate Took(r: Result<OrderState, Error>, before: OrderState, after: OrderState, outcome: Outcome<Error>) {
    if r.Success? then after == r.value && outcome == Pass
    else after == before && outcome == Fail(r.error)
  }

  class Order {
    const orderId: Uuid
    const items: seq<OrderItem>
    const createdAt: Instant
    var status: OrderStatus
    var domainEvents: seq<DomainEvent>

    function State(): OrderState
      reads this
    {
      OrderState(status, domainEvents)
    }

    /** The constructor once its checks have passed; see `Create`. */
    constructor (orderId: Uuid, items: seq<OrderItem>, createdAt: Instant)
      requires |items| > 0
      ensures this.orderId == orderId && this.items == items && this.createdAt == createdAt
      ensures status == Created && domainEvents == []
    {
      this.orderId := orderId;
      this.items := items;
      this.createdAt := createdAt;
      status := Created;
      domainEvents := [];
    }

    /** `new Order(orderId, items)` with its checks: a `null` id, then a
        `null` or empty item list, is rejected. `createdAt` is the clock
        reading. */
    static method Create(orderId: Option<Uuid>, items: Option<seq<OrderItem>>, createdAt: Instant)
      returns (r: Result<Order, Error>)
      ensures orderId.None? ==> r == Failure(Error(IllegalArgument, "OrderId must be provided"))
      ensures orderId.Some? && (items.None? || |items.value| == 0) ==>
        r == Failure(Error(InvalidOrderState, "Order must contain at least one item"))
      ensures orderId.Some? && items.Some? && |items.value| > 0 ==>
        r.Success? && fresh(r.value)
        && r.value.orderId == orderId.value && r.value.items == items.value && r.value.createdAt == createdAt
        && r.value.State() == OrderState(Created, [])
    {
      if orderId.None? {
        return Failure(Error(IllegalArgument, "OrderId must be provided"));
      }
      if items.None? || |items.value| == 0 {
        return Failure(Error(InvalidOrderState, "Order must contain at least one item"));
      }
      var order := new Order(orderId.value, items.value, createdAt);
      r := Success(order);
    }

    /** `getDomainEvents`: a copy of the queue, which stays as it is. */
    method GetDomainEvents() returns (events: seq<DomainEvent>)
      ensures events == domainEvents
    {
      events := domainEvents;
    }

    /** `clearDomainEvents`. */
    method ClearDomainEvents()
      modifies this
      ensures State() == Fire(orderId, old(State()), ClearEvents)
      ensures domainEvents == [] && status == old(status)
    {
      domainEvents := [];
    }

    method MarkPending() returns (outcome: Outcome<Error>)
      modifies this
      ensures Took(MarkPendingOn(old(State())), old(State()), State(), outcome)
    {
      if status != Created {
        return Fail(MarkPendingRejected());
      }
      status := Pending;
      outcome := Pass;
    }

    method Confirm() returns (outcome: Outcome<Error>)
      modifies this
      ensures Took(ConfirmOn(old(State())), old(State()), State(), outcome)
    {
      if status != Created {
        return Fail(ConfirmRejected(status));
      }
      status := Confirmed;
      outcome := Pass;
    }

    method Cancel(reason: string) returns (outcome: Outcome<Error>)
      modifies this
      ensures Took(CancelOn(orderId, old(State()), reason), old(State()), State(), outcome)
    {
      if status == Cancelled {
        return Fail(Error(InvalidOrderState, "Order is already cancelled"));
      }
      if status == Completed {
        return Fail(Error(InvalidOrderState, "Cannot cancel a completed order"));
      }
      status := Cancelled;
      domainEvents := domainEvents + [OrderCancelled(orderId, reason)];
      outcome := Pass;
    }

    method CancelIfNotAlreadyCancelled(reason: string)
      modifies this
      ensures State() == CancelIfNotCancelledOn(orderId, old(State()), reason)
    {
      if status == Cancelled || status == Completed {
        return;
      }
      var _ := Cancel(reason);
    }

    /** `equals`: by order id alone, whatever the status, items or queue. */
    function Equals(that: Order): (r: bool)
      ensures r <==> orderId == that.orderId
    {
      orderId == that.orderId
    }
  }
}
