/**
 * The order service: create, read, partially update and delete orders kept
 * in a repository, here an in-memory map from id to row plus the ids in the
 * order the repository returns them (insertion order). The user directory's
 * answer to `getUserById` is an input.
 */
module Orders {
  import opened Wrappers
  import opened OrderStatusEnum
  import opened OrderEntity
  import opened OrderTransitions

  /** The directory's view of a customer, as the order service receives it. */
  datatype Customer = Customer(id: int, name: string)

  /**
   * The outcomes of `getUserById`: a customer; or a failure, either a 404 or
   * the fallback's `RuntimeException` (both are caught by the same handler).
   */
  datatype CustomerLookup = Found(customer: Customer) | NotFound | Unavailable

  datatype CreateOrderRequest = CreateOrderRequest(
    customerId: int, totalAmount: int, notes: Option<string>,
    deliveryAddress: Option<string>, phone: Option<string>)

  /** A partial update: `None` (Java's null) means "keep the current value". */
  datatype UpdateOrderRequest = UpdateOrderRequest(
    orderStatus: Option<OrderStatus>, totalAmount: Option<int>, notes: Option<string>,
    deliveryAddress: Option<string>, phone: Option<string>)

  datatype OrderResponse = OrderResponse(
    id: Option<int>,
    customerId: int,
    orderDateTime: Option<int>,
    orderStatus: string,
    orderStatusDisplay: string,
    totalAmount: int,
    notes: Option<string>,
    deliveryAddress: Option<string>,
    phone: Option<string>,
    createdAt: Option<int>,
    updatedAt: Option<int>,
    customer: Option<Customer>)

  datatype OrderError = CustomerNotFound | OrderNotFound | InvalidOrderStatus | ConstraintViolation

  /** `validateCustomerExists`: any failure of the lookup becomes "customer not found". */
  function ValidateCustomerExists(lookup: CustomerLookup): (r: Result<Customer, OrderError>)
    ensures r.Success? <==> lookup.Found?
    ensures r.Success? ==> r.value == lookup.customer
    ensures r.Failure? ==> r.error == CustomerNotFound
  {
    if lookup.Found? then Success(lookup.customer) else Failure(CustomerNotFound)
  }

  /** `getCustomerInfo`: any failure of the lookup becomes null. */
  function GetCustomerInfo(lookup: CustomerLookup): (r: Option<Customer>)
    ensures r.Some? <==> lookup.Found?
    ensures r.Some? ==> r.value == lookup.customer
  {
    if lookup.Found? then Some(lookup.customer) else None
  }

  /** Reads a response back into the row it was built from. */
  function ResponseRecord(r: OrderResponse): Option<OrderRecord> {
    match ValueOf(r.orderStatus)
    case None => None
    case Some(status) =>
      Some(OrderRecord(r.id, r.customerId, r.orderDateTime, Some(status), r.totalAmount, r.notes,
                       r.deliveryAddress, r.phone, r.createdAt, r.updatedAt))
  }

  /**
   * `mapToResponse`: the response loses nothing of the row (it can be read
   * back into it), shows the status under its constant name and its display
   * name, and carries the customer it was given.
   */
  function MapToResponse(o: OrderRecord, customer: Option<Customer>): (r: OrderResponse)
    requires o.orderStatus.Some?
    ensures ResponseRecord(r) == Some(o)
    ensures r.orderStatus == o.orderStatus.value.Name()
    ensures r.orderStatusDisplay == o.orderStatus.value.DisplayName()
    ensures r.customer == customer
  {
    ValueOfName(o.orderStatus.value);
    OrderResponse(o.id, o.customerId, o.orderDateTime, o.orderStatus.value.Name(),
                  o.orderStatus.value.DisplayName(), o.totalAmount, o.notes, o.deliveryAddress,
                  o.phone, o.createdAt, o.updatedAt, customer)
  }

  predicate NoDuplicates(s: seq<int>) {
    forall i, j | 0 <= i < j < |s| :: s[i] != s[j]
  }

  /** The head of a duplicate-free sequence does not recur in its tail, which is duplicate-free too. */
  lemma NoDuplicatesTail(s: seq<int>)
    requires |s| >= 1
    ensures NoDuplicates(s) ==> s[0] !in s[1..] && NoDuplicates(s[1..])
  {
    if NoDuplicates(s) {
      forall i | 0 <= i < |s| - 1
        ensures s[1..][i] != s[0]
      {
        assert s[1..][i] == s[i + 1];
      }
    }
  }

  /** Every listed id names a stored row that has a status. */
  predicate Listed(ids: seq<int>, store: map<int, OrderRecord>) {
    forall i | 0 <= i < |ids| :: ids[i] in store && store[ids[i]].orderStatus.Some?
  }

  /** `s` is `t` with some elements deleted and the rest in their original order. */
  predicate Subsequence(s: seq<int>, t: seq<int>)
    decreases |t|
  {
    if t == [] then s == []
    else (s != [] && s[0] == t[0] && Subsequence(s[1..], t[1..])) || Subsequence(s, t[1..])
  }

  /** The ids of the stored orders a query matches, in repository order. */
  function Select(ids: seq<int>, store: map<int, OrderRecord>, keep: OrderRecord -> bool): (s: seq<int>)
    requires forall i | 0 <= i < |ids| :: ids[i] in store
    ensures forall id :: id in s <==> id in ids && keep(store[id])
    ensures Subsequence(s, ids)
    ensures NoDuplicates(ids) ==> NoDuplicates(s)
    decreases |ids|
  {
    if ids == [] then []
    else
      assert ids == [ids[0]] + ids[1..];
      var rest := Select(ids[1..], store, keep);
      NoDuplicatesTail(ids);
      if keep(store[ids[0]]) then [ids[0]] + rest else rest
  }

  /** One response per selected order, in the same order, each built from that order's row. */
  predicate RespondsTo(r: seq<OrderResponse>, sel: seq<int>, store: map<int, OrderRecord>,
                       customerOf: OrderRecord -> Option<Customer>)
  {
    |r| == |sel| &&
    forall k | 0 <= k < |r| ::
      sel[k] in store && store[sel[k]].orderStatus.Some? &&
      r[k] == MapToResponse(store[sel[k]], customerOf(store[sel[k]]))
  }

  /** `stream().map(mapToResponse)`: one response per row, in the order the query returned them. */
  function MapResponses(sel: seq<int>, store: map<int, OrderRecord>,
                        customerOf: OrderRecord -> Option<Customer>): (r: seq<OrderResponse>)
    requires Listed(sel, store)
    ensures RespondsTo(r, sel, store, customerOf)
    decreases |sel|
  {
    if sel == [] then []
    else
      var o := store[sel[0]];
      var rest := MapResponses(sel[1..], store, customerOf);
      assert RespondsTo(rest, sel[1..], store, customerOf);
      [MapToResponse(o, customerOf(o))] + rest
  }

  /**
   * A mapping that asks the directory once per row: the k-th row is mapped
   * with the customer the k-th answer yields, so two rows of one customer
   * may carry different answers.
   */
  function MapWithLookups(sel: seq<int>, store: map<int, OrderRecord>, lookups: seq<CustomerLookup>)
    : (r: seq<OrderResponse>)
    requires Listed(sel, store) && |lookups| == |sel|
    ensures |r| == |sel|
    ensures forall k | 0 <= k < |r| ::
      sel[k] in store && store[sel[k]].orderStatus.Some? &&
      r[k] == MapToResponse(store[sel[k]], GetCustomerInfo(lookups[k]))
    decreases |sel|
  {
    if sel == [] then []
    else
      var rest := MapWithLookups(sel[1..], store, lookups[1..]);
      [MapToResponse(store[sel[0]], GetCustomerInfo(lookups[0]))] + rest
  }

  /** A repository query followed by the mapping to responses. */
  function Responses(ids: seq<int>, store: map<int, OrderRecord>, keep: OrderRecord -> bool,
                     customerOf: OrderRecord -> Option<Customer>): (r: seq<OrderResponse>)
    requires Listed(ids, store)
    ensures RespondsTo(r, Select(ids, store, keep), store, customerOf)
  {
    var sel := Select(ids, store, keep);
    assert Listed(sel, store) by {
      forall i | 0 <= i < |sel|
        ensures sel[i] in store && store[sel[i]].orderStatus.Some?
      {
        assert sel[i] in sel;
        var j :| 0 <= j < |ids| && ids[j] == sel[i];
      }
    }
    MapResponses(sel, store, customerOf)
  }

  /**
   * The partial update of `updateOrder`: each non-null request field
   * overwrites its column, each null one keeps it, and the identity, customer,
   * order time and audit times are never touched.
   */
  function Patched(o: OrderRecord, req: UpdateOrderRequest): (r: OrderRecord)
    ensures r.id == o.id && r.customerId == o.customerId && r.orderDateTime == o.orderDateTime
    ensures r.createdAt == o.createdAt && r.updatedAt == o.updatedAt
    ensures r.orderStatus == if req.orderStatus.Some? then req.orderStatus else o.orderStatus
    ensures r.totalAmount == if req.totalAmount.Some? then req.totalAmount.value else o.totalAmount
    ensures r.notes == if req.notes.Some? then req.notes else o.notes
    ensures r.deliveryAddress == if req.deliveryAddress.Some? then req.deliveryAddress else o.deliveryAddress
    ensures r.phone == if req.phone.Some? then req.phone else o.phone
  {
    o.(orderStatus := if req.orderStatus.Some? then req.orderStatus else o.orderStatus,
       totalAmount := if req.totalAmount.Some? then req.totalAmount.value else o.totalAmount,
       notes := if req.notes.Some? then req.notes else o.notes,
       deliveryAddress := if req.deliveryAddress.Some? then req.deliveryAddress else o.deliveryAddress,
       phone := if req.phone.Some? then req.phone else o.phone)
  }

  /** The row a flush writes: `onUpdate` runs only when the entity differs from what was loaded. */
  function Flushed(loaded: OrderRecord, current: OrderRecord, now: int): (r: OrderRecord)
    ensures r == current || r == current.(updatedAt := Some(now))
    ensures current == loaded ==> r == loaded
    ensures current != loaded ==> r.updatedAt == Some(now)
  {
    if current != loaded then current.(updatedAt := Some(now)) else current
  }

  /** The row `createOrder` inserts: the request's fields, the new id, and what `onCreate` stamps. */
  function NewRecord(id: int, req: CreateOrderRequest, now: int): (r: OrderRecord)
    ensures r.orderStatus == Some(Pending) && r.id == Some(id)
    ensures r.orderDateTime == Some(now) && r.createdAt == Some(now) && r.updatedAt == Some(now)
    ensures r.customerId == req.customerId && r.totalAmount == req.totalAmount
    ensures r.notes == req.notes && r.deliveryAddress == req.deliveryAddress && r.phone == req.phone
  {
    OrderRecord(Some(id), req.customerId, Some(now), Some(Pending), req.totalAmount, req.notes,
                req.deliveryAddress, req.phone, Some(now), Some(now))
  }

  /** `deleteOrder` accepts only these statuses. */
  predicate Deletable(s: OrderStatus) {
    s == Pending || s == Cancelled
  }

  /** `ids` without `x`, order kept. */
  function Without(ids: seq<int>, x: int): (r: seq<int>)
    ensures forall y :: y in r <==> y in ids && y != x
    ensures Subsequence(r, ids)
    ensures NoDuplicates(ids) ==> NoDuplicates(r)
    decreases |ids|
  {
    if ids == [] then []
    else
      var rest := Without(ids[1..], x);
      assert ids == [ids[0]] + ids[1..];
      NoDuplicatesTail(ids);
      if ids[0] == x then rest else [ids[0]] + rest
  }

  /**
   * What the repository guarantees about its rows: each id listed once, the
   * listed ids are exactly the stored ones, every row carries its own id,
   * meets the column constraints, and has an id the identity column has
   * already handed out.
   */
  ghost predicate RepositoryInvariant(orders: map<int, OrderRecord>, ids: seq<int>, nextId: int) {
    && nextId >= 1
    && NoDuplicates(ids)
    && (forall id :: id in ids <==> id in orders)
    && Listed(ids, orders)
    && (forall id | id in orders :: orders[id].id == Some(id) && Storable(orders[id]) && 0 < id < nextId)
  }

  /** Rewriting a stored row with a storable row for the same id keeps the invariant. */
  lemma RewriteKeepsInvariant(orders: map<int, OrderRecord>, ids: seq<int>, nextId: int,
                              id: int, row: OrderRecord)
    requires RepositoryInvariant(orders, ids, nextId)
    requires id in orders && row.id == Some(id) && Storable(row)
    ensures RepositoryInvariant(orders[id := row], ids, nextId)
  {
  }

  class OrderService {
    /** The repository: rows by id, and the ids in the order `findAll` returns them. */
    var orders: map<int, OrderRecord>
    var ids: seq<int>
    /** The next identity value the database hands out. */
    var nextId: int

    ghost predicate Valid()
      reads this
    {
      RepositoryInvariant(orders, ids, nextId)
    }

    constructor ()
      ensures Valid() && orders == map[] && ids == [] && nextId == 1
    {
      orders, ids, nextId := map[], [], 1;
    }

    /**
     * `createOrder`: a failed customer lookup throws "customer not found" and
     * saves nothing; otherwise the row is inserted with status PENDING and the
     * next id, unless it breaks a column constraint.
     */
    method CreateOrder(req: CreateOrderRequest, lookup: CustomerLookup, now: int)
      returns (r: Result<OrderResponse, OrderError>)
      requires Valid()
      modifies this
      ensures Valid()
      ensures !lookup.Found? ==>
        r == Failure(CustomerNotFound) && orders == old(orders) && ids == old(ids) && nextId == old(nextId)
      ensures lookup.Found? && !Storable(NewRecord(old(nextId), req, now)) ==>
        r == Failure(ConstraintViolation) && orders == old(orders) && ids == old(ids) && nextId == old(nextId)
      ensures lookup.Found? && Storable(NewRecord(old(nextId), req, now)) ==>
        && r == Success(MapToResponse(NewRecord(old(nextId), req, now), Some(lookup.customer)))
        && orders == old(orders)[old(nextId) := NewRecord(old(nextId), req, now)]
        && ids == old(ids) + [old(nextId)]
        && nextId == old(nextId) + 1
    {
      var customer := ValidateCustomerExists(lookup);
      if customer.Failure? {
        return Failure(customer.error);
      }
      var order := new Order.Build(req.customerId, req.totalAmount, req.notes, req.deliveryAddress, req.phone);
      // save: @PrePersist, then the identity insert
      order.OnCreate(now);
      order.id := Some(nextId);
      var row := order.Record();
      assert row == NewRecord(nextId, req, now);
      if !Storable(row) {
        return Failure(ConstraintViolation);
      }
      orders := orders[nextId := row];
      ids := ids + [nextId];
      nextId := nextId + 1;
      r := Success(MapToResponse(row, Some(customer.value)));
    }

    /** `getOrderById`: the stored order without customer details, or "order not found". */
    function GetOrderById(id: int): (r: Result<OrderResponse, OrderError>)
      reads this
      requires Valid()
      ensures r.Success? <==> id in orders
      ensures r.Failure? ==> r.error == OrderNotFound
      ensures r.Success? ==>
        ResponseRecord(r.value) == Some(orders[id]) && r.value.id == Some(id) && r.value.customer == None
    {
      if id in orders then Success(MapToResponse(orders[id], None)) else Failure(OrderNotFound)
    }

    /** `getOrderByIdWithCustomer`: as above, with the customer or null if the lookup failed. */
    function GetOrderByIdWithCustomer(id: int, lookup: CustomerLookup): (r: Result<OrderResponse, OrderError>)
      reads this
      requires Valid()
      ensures r.Success? <==> id in orders
      ensures r.Failure? ==> r.error == OrderNotFound
      ensures r.Success? ==>
        ResponseRecord(r.value) == Some(orders[id]) && r.value.customer == GetCustomerInfo(lookup)
    {
      if id in orders then Success(MapToResponse(orders[id], GetCustomerInfo(lookup))) else Failure(OrderNotFound)
    }

    /**
     * `updateOrder`: an unknown id or a rejected status change throws before
     * any field is assigned and nothing is written; otherwise the non-null
     * fields are applied, the response shows the entity before the flush, and
     * the flush writes the row (with `updatedAt` refreshed if anything changed)
     * unless it breaks a column constraint, which rolls everything back.
     */
    method UpdateOrder(id: int, req: UpdateOrderRequest, now: int)
      returns (r: Result<OrderResponse, OrderError>)
      requires Valid()
      modifies this
      ensures Valid() && ids == old(ids) && nextId == old(nextId)
      ensures id !in old(orders) ==> r == Failure(OrderNotFound) && orders == old(orders)
      ensures id in old(orders) && req.orderStatus.Some? &&
              !CanTransition(old(orders)[id].orderStatus.value, req.orderStatus.value) ==>
        r == Failure(InvalidOrderStatus) && orders == old(orders)
      ensures id in old(orders) &&
              (req.orderStatus.Some? ==> CanTransition(old(orders)[id].orderStatus.value, req.orderStatus.value)) ==>
        var before := old(orders)[id];
        var row := Flushed(before, Patched(before, req), now);
        if Storable(row) then
          r == Success(MapToResponse(Patched(before, req), None)) && orders == old(orders)[id := row]
        else
          r == Failure(ConstraintViolation) && orders == old(orders)
    {
      if id !in orders {
        return Failure(OrderNotFound);
      }
      var loaded := orders[id];
      var order := new Order.Load(loaded);
      if req.orderStatus.Some? && !CanTransition(order.orderStatus.value, req.orderStatus.value) {
        return Failure(InvalidOrderStatus);
      }
      AssignFields(order, req);
      var response := MapToResponse(order.Record(), None);
      // commit: the flush runs @PreUpdate on a changed entity, then writes it
      if order.Record() != loaded {
        order.OnUpdate(now);
      }
      var row := order.Record();
      assert row == Flushed(loaded, Patched(loaded, req), now);
      if !Storable(row) {
        return Failure(ConstraintViolation);
      }
      RewriteKeepsInvariant(orders, ids, nextId, id, row);
      orders := orders[id := row];
      r := Success(response);
    }

    /** The setter calls of `updateOrder`, each guarded by its request field being non-null. */
    static method AssignFields(order: Order, req: UpdateOrderRequest)
      modifies order
      ensures order.Record() == Patched(old(order.Record()), req)
    {
      if req.orderStatus.Some? {
        order.orderStatus := req.orderStatus;
      }
      if req.totalAmount.Some? {
        order.totalAmount := req.totalAmount.value;
      }
      if req.notes.Some? {
        order.notes := req.notes;
      }
      if req.deliveryAddress.Some? {
        order.deliveryAddress := req.deliveryAddress;
      }
      if req.phone.Some? {
        order.phone := req.phone;
      }
    }

    /** `deleteOrder`: only a PENDING or CANCELLED order is removed; anything else stays. */
    method DeleteOrder(id: int) returns (r: Outcome<OrderError>)
      requires Valid()
      modifies this
      ensures Valid() && nextId == old(nextId)
      ensures id !in old(orders) ==> r == Fail(OrderNotFound) && orders == old(orders) && ids == old(ids)
      ensures id in old(orders) && !Deletable(old(orders)[id].orderStatus.value) ==>
        r == Fail(InvalidOrderStatus) && orders == old(orders) && ids == old(ids)
      ensures id in old(orders) && Deletable(old(orders)[id].orderStatus.value) ==>
        r == Pass && orders == old(orders) - {id} && ids == Without(old(ids), id)
    {
      if id !in orders {
        return Fail(OrderNotFound);
      }
      var order := orders[id];
      if order.orderStatus.value != Pending && order.orderStatus.value != Cancelled {
        return Fail(InvalidOrderStatus);
      }
      orders := orders - {id};
      ids := Without(ids, id);
      r := Pass;
    }

    /** `getOrdersByCustomerId`: that customer's orders, in repository order, without customer details. */
    function GetOrdersByCustomerId(customerId: int): (r: seq<OrderResponse>)
      reads this
      requires Valid()
      ensures RespondsTo(r, Select(ids, orders, (o: OrderRecord) => o.customerId == customerId), orders, (o: OrderRecord) => None)
    {
      Responses(ids, orders, (o: OrderRecord) => o.customerId == customerId, (o: OrderRecord) => None)
    }

    /** `getOrdersByCustomerIdWithCustomer`: one customer lookup, its result attached to every order. */
    function GetOrdersByCustomerIdWithCustomer(customerId: int, lookup: CustomerLookup): (r: seq<OrderResponse>)
      reads this
      requires Valid()
      ensures RespondsTo(r, Select(ids, orders, (o: OrderRecord) => o.customerId == customerId), orders,
                         (o: OrderRecord) => GetCustomerInfo(lookup))
    {
      Responses(ids, orders, (o: OrderRecord) => o.customerId == customerId, (o: OrderRecord) => GetCustomerInfo(lookup))
    }

    /** `getOrdersByStatus`. */
    function GetOrdersByStatus(status: OrderStatus): (r: seq<OrderResponse>)
      reads this
      requires Valid()
      ensures RespondsTo(r, Select(ids, orders, (o: OrderRecord) => o.orderStatus == Some(status)), orders, (o: OrderRecord) => None)
    {
      Responses(ids, orders, (o: OrderRecord) => o.orderStatus == Some(status), (o: OrderRecord) => None)
    }

    /** `getOrdersByDateRange`: order times within the range, both ends included (SQL BETWEEN). */
    function GetOrdersByDateRange(startDate: int, endDate: int): (r: seq<OrderResponse>)
      reads this
      requires Valid()
      ensures RespondsTo(r, Select(ids, orders, (o: OrderRecord) => InRange(o, startDate, endDate)), orders, (o: OrderRecord) => None)
    {
      Responses(ids, orders, (o: OrderRecord) => InRange(o, startDate, endDate), (o: OrderRecord) => None)
    }

    /** `getAllOrders`, without the paging. */
    function GetAllOrders(): (r: seq<OrderResponse>)
      reads this
      requires Valid()
      ensures RespondsTo(r, ids, orders, (o: OrderRecord) => None)
    {
      SelectAll(ids, orders);
      Responses(ids, orders, (o: OrderRecord) => true, (o: OrderRecord) => None)
    }

    /**
     * `getAllOrdersWithCustomers`, without the paging: the directory is asked
     * once per order, and `lookups[k]` is the answer for the k-th stored order.
     */
    function GetAllOrdersWithCustomers(lookups: seq<CustomerLookup>): (r: seq<OrderResponse>)
      reads this
      requires Valid() && |lookups| == |ids|
      ensures |r| == |ids|
      ensures forall k | 0 <= k < |r| ::
        ids[k] in orders && orders[ids[k]].orderStatus.Some? &&
        r[k] == MapToResponse(orders[ids[k]], GetCustomerInfo(lookups[k]))
    {
      MapWithLookups(ids, orders, lookups)
    }
  }

  predicate InRange(o: OrderRecord, startDate: int, endDate: int) {
    o.orderDateTime.Some? && startDate <= o.orderDateTime.value <= endDate
  }

  /** A query that keeps everything returns the repository order unchanged. */
  lemma {:induction false} SelectAll(ids: seq<int>, store: map<int, OrderRecord>)
    requires forall i | 0 <= i < |ids| :: ids[i] in store
    ensures Select(ids, store, (o: OrderRecord) => true) == ids
    decreases |ids|
  {
    if ids != [] {
      SelectAll(ids[1..], store);
      assert ids == [ids[0]] + ids[1..];
    }
  }
}
