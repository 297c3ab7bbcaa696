/**
 * The records of the storefront's document collections (`src/types/index.ts`).
 *
 * Money on orders and products is in integer cents. A date is the number of
 * milliseconds since the epoch that `new Date(text).getTime()` yields for the stored
 * date text; parsing itself and time zones are not modelled.
 */
module Types {

  datatype Option<T> = None | Some(value: T)

  /** A Firestore timestamp `{ seconds, nanoseconds }`. */
  datatype Timestamp = Timestamp(seconds: int, nanoseconds: int)

  /** The five order statuses; `Cancelled` exists in the taxonomy only. */
  datatype Status = Pending | Confirmed | Ready | Completed | Cancelled

  /** The status as it is stored and displayed. */
  function StatusName(s: Status): (r: string)
    ensures |r| > 0
  {
    match s
    case Pending => "pending"
    case Confirmed => "confirmed"
    case Ready => "ready"
    case Completed => "completed"
    case Cancelled => "cancelled"
  }

  /** One line of an order; `price` is the unit price in cents captured at order time. */
  datatype OrderItem = OrderItem(productId: string, productName: string, quantity: int, price: int)

  datatype Order = Order(
    id: string,
    userId: string,
    userEmail: string,
    items: seq<OrderItem>,
    total: nat,                  // cents
    status: Status,
    notes: Option<string>,
    createdAt: Option<Timestamp>,
    deliveryDate: Option<int>,   // None when absent or the empty text
    isPhoneOrder: Option<bool>,
    updatedAt: Option<int>)

  function OrderId(o: Order): string { o.id }

  datatype Product = Product(
    id: string,
    name: string,
    description: string,
    price: int,                  // cents
    category: string,
    imageUrl: Option<string>,
    available: bool,
    createdAt: Option<Timestamp>)

  datatype Vacation = Vacation(
    id: string,
    startDate: int,
    endDate: int,
    reason: string,
    createdAt: Timestamp)

  function VacationId(v: Vacation): string { v.id }

  datatype Shift = Shift(day: string, startTime: string, endTime: string)

  datatype TeamMember = TeamMember(
    id: string,
    name: string,
    role: string,
    email: Option<string>,
    phone: Option<string>,
    schedule: seq<Shift>,
    createdAt: Timestamp)

  function MemberId(m: TeamMember): string { m.id }

  datatype EventType = OrderEvent | OtherEvent

  datatype CalendarEvent = CalendarEvent(
    id: string,
    title: string,
    start: int,
    end: int,
    orderId: Option<string>,
    eventType: EventType)
}
