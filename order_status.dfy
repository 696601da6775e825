/** The eight order states, each with its enum constant name and its Vietnamese display name. */
module OrderStatusEnum {
  import opened Wrappers

  datatype OrderStatus =
    | Pending
    | Confirmed
    | Preparing
    | Ready
    | OutForDelivery
    | Delivered
    | Cancelled
    | Refunded
  {
    /** `name()`: the constant as written in the enum, which is what the database and the API carry. */
    function Name(): string {
      match this
      case Pending => "PENDING"
      case Confirmed => "CONFIRMED"
      case Preparing => "PREPARING"
      case Ready => "READY"
      case OutForDelivery => "OUT_FOR_DELIVERY"
      case Delivered => "DELIVERED"
      case Cancelled => "CANCELLED"
      case Refunded => "REFUNDED"
    }

    function DisplayName(): string {
      match this
      case Pending => "Đang chờ xử lý"
      case Confirmed => "Đã xác nhận"
      case Preparing => "Đang chuẩn bị"
      case Ready => "Sẵn sàng"
      case OutForDelivery => "Đang giao hàng"
      case Delivered => "Đã giao"
      case Cancelled => "Đã hủy"
      case Refunded => "Đã hoàn tiền"
    }
  }

  /** `OrderStatus.valueOf(name)`: the constant with that name, if any. */
  function ValueOf(name: string): (r: Option<OrderStatus>)
    ensures r.Some? ==> r.value.Name() == name
  {
    if name == "PENDING" then Some(Pending)
    else if name == "CONFIRMED" then Some(Confirmed)
    else if name == "PREPARING" then Some(Preparing)
    else if name == "READY" then Some(Ready)
    else if name == "OUT_FOR_DELIVERY" then Some(OutForDelivery)
    else if name == "DELIVERED" then Some(Delivered)
    else if name == "CANCELLED" then Some(Cancelled)
    else if name == "REFUNDED" then Some(Refunded)
    else None
  }

  /** Names identify constants: `valueOf(s.name()) == s`, so the name a response carries loses nothing. */
  lemma ValueOfName(s: OrderStatus)
    ensures ValueOf(s.Name()) == Some(s)
  {
  }
}
