/**
 * The `orders` table's entity. `OrderRecord` is one row (every nullable
 * column an `Option`); `Order` is the in-memory entity whose lifecycle hooks
 * the persistence layer runs before an insert (`OnCreate`) and before an
 * update is flushed (`OnUpdate`). Times are clock readings passed in.
 */
module OrderEntity {
  import opened Wrappers
  import opened OrderStatusEnum

  const NotesMaxLength: nat := 500
  /** Length of a string column declared without an explicit `length`. */
  const DefaultColumnLength: nat := 255

  datatype OrderRecord = OrderRecord(
    id: Option<int>,
    customerId: int,
    orderDateTime: Option<int>,
    orderStatus: Option<OrderStatus>,
    totalAmount: int,
    notes: Option<string>,
    deliveryAddress: Option<string>,
    phone: Option<string>,
    createdAt: Option<int>,
    updatedAt: Option<int>)

  predicate FitsColumn(s: Option<string>, length: nat) {
    s.None? || |s.value| <= length
  }

  /**
   * The column constraints a row must meet to be written: an id, a non-null
   * order time and status (customer id and amount are never null here), notes
   * of at most 500 characters, address and phone within the default 255.
   */
  predicate Storable(r: OrderRecord) {
    && r.id.Some?
    && r.orderDateTime.Some?
    && r.orderStatus.Some?
    && FitsColumn(r.notes, NotesMaxLength)
    && FitsColumn(r.deliveryAddress, DefaultColumnLength)
    && FitsColumn(r.phone, DefaultColumnLength)
  }

  class Order {
    var id: Option<int>
    var customerId: int
    var orderDateTime: Option<int>
    var orderStatus: Option<OrderStatus>
    var totalAmount: int
    var notes: Option<string>
    var deliveryAddress: Option<string>
    var phone: Option<string>
    var createdAt: Option<int>
    var updatedAt: Option<int>

    /** The entity's current field values as a row. */
    function Record(): OrderRecord
      reads this
    {
      OrderRecord(id, customerId, orderDateTime, orderStatus, totalAmount, notes,
                  deliveryAddress, phone, createdAt, updatedAt)
    }

    /** `Order.builder()...build()`: fields the builder is not given stay null, the status included. */
    constructor Build(customerId: int, totalAmount: int, notes: Option<string>,
                      deliveryAddress: Option<string>, phone: Option<string>)
      ensures Record() == OrderRecord(None, customerId, None, None, totalAmount, notes,
                                      deliveryAddress, phone, None, None)
    {
      this.id := None;
      this.customerId := customerId;
      this.orderDateTime := None;
      this.orderStatus := None;
      this.totalAmount := totalAmount;
      this.notes := notes;
      this.deliveryAddress := deliveryAddress;
      this.phone := phone;
      this.createdAt := None;
      this.updatedAt := None;
    }

    /** The entity `findById` materialises from a stored row. */
    constructor Load(r: OrderRecord)
      ensures Record() == r
    {
      id, customerId, orderDateTime, orderStatus := r.id, r.customerId, r.orderDateTime, r.orderStatus;
      totalAmount, notes, deliveryAddress, phone := r.totalAmount, r.notes, r.deliveryAddress, r.phone;
      createdAt, updatedAt := r.createdAt, r.updatedAt;
    }

    /**
     * `@PrePersist onCreate`: stamps the order time and both audit times and
     * forces the status to PENDING, whatever the builder was given.
     */
    method OnCreate(now: int)
      modifies this
      ensures Record() == old(Record()).(orderDateTime := Some(now), orderStatus := Some(Pending),
                                         createdAt := Some(now), updatedAt := Some(now))
    {
      orderDateTime := Some(now);
      orderStatus := Some(Pending);
      createdAt := Some(now);
      updatedAt := Some(now);
    }

    /** `@PreUpdate onUpdate`: refreshes `updatedAt` and nothing else. */
    method OnUpdate(now: int)
      modifies this
      ensures Record() == old(Record()).(updatedAt := Some(now))
    {
      updatedAt := Some(now);
    }
  }
}
