/** The three record stores the delivery workflow reads and writes, the
    notification log, and the responses its handlers return. */
module Records {
  import opened Optional

  /** Order lifecycle: pending -> active -> picked -> delivered. */
  datatype Status = Pending | Active | Picked | Delivered

  /** Position of a status in the forward lifecycle. */
  function Rank(st: Status): (n: nat)
    ensures n <= 3
    ensures st == Pending <==> n == 0
    ensures st == Delivered <==> n == 3
  {
    match st
    case Pending => 0
    case Active => 1
    case Picked => 2
    case Delivered => 3
  }

  /** The string stored in the `status` column for each status. */
  function StatusName(st: Status): string
  {
    match st
    case Pending => "pending"
    case Active => "active"
    case Picked => "picked"
    case Delivered => "delivered"
  }

  /** The status-update handler accepts exactly the three post-assignment
      names; anything else (including "pending") is an invalid target. */
  function ParseTarget(name: string): (r: Option<Status>)
    ensures r.Some? ==> r.value != Pending && StatusName(r.value) == name
    ensures forall st :: st != Pending && StatusName(st) == name ==> r == Some(st)
  {
    if name == "active" then Some(Active)
    else if name == "picked" then Some(Picked)
    else if name == "delivered" then Some(Delivered)
    else None
  }

  /** The customer, address, package and timing fields of an order; this is
      what an assignment copies as its snapshot. A null `pickupTime` marks an
      unscheduled request. */
  datatype Details = Details(
    name: string,
    email: string,
    phoneNumber: string,
    pickupAddress: string,
    dropAddress: string,
    content: string,
    weight: string,
    pickupDate: string,
    pickupTime: Option<string>,
    dropTime: string,
    createdAt: string,
    receiverPhonenumber: string,
    receiverName: string,
    deliveryInstructions: string)

  /** A customer order, keyed by `id` in its store. */
  datatype Order = Order(
    id: string,
    details: Details,
    status: Status,
    assignedDriver: Option<string>)

  /** The driver-facing record created on assignment, keyed by `orderId`. */
  datatype AssignedOrder = AssignedOrder(
    orderId: string,
    driverId: string,
    driverName: string,
    driverPhoneNumber: string,
    status: Status,
    otp: Option<string>,
    snapshot: Details)

  datatype Availability = Available | Assigned

  /** A delivery driver row. */
  datatype DeliveryBoy = DeliveryBoy(
    userId: string,
    phonenumber: string,
    email: string,
    available: Availability)

  /** What each message sent through the mail transport is about. */
  datatype Notice =
    | AssignedToCustomer(orderId: string, driverName: string, driverPhone: string)
    | AssignedToDriver(orderId: string)
    | DeliveredToCustomer(orderId: string)
    | OtpToCustomer(orderId: string, otp: Option<string>)

  datatype Email = Email(to: string, notice: Notice)

  /** Orders keyed by id, assignments keyed by order id, driver rows in table
      order, and every message handed to the mail transport so far. */
  datatype State = State(
    orders: map<string, Order>,
    assignments: map<string, AssignedOrder>,
    drivers: seq<DeliveryBoy>,
    outbox: seq<Email>)

  /** The message carried by a response body. Each constructor stands for
      one kind of message; where two handlers word the same kind
      differently (the missing-field messages of the status update and of
      the code check), they share a constructor. */
  datatype Message =
    | DriverAssigned
    | OrderNotFound
    | DriverNotFound
    | MissingFields
    | OrderOrAssignmentNotFound
    | InvalidStatus
    | AlreadyDelivered
    | CannotRevert
    | StatusUpdated
    | AssignmentNotFound
    | InvalidOtp
    | OtpVerified

  const OK: int := 200
  const CREATED: int := 201
  const BAD_REQUEST: int := 400
  const NOT_FOUND: int := 404

  /** Outcome of a state-changing handler: the HTTP status code, the body's
      message, the record returned in the body (assignment only) and the
      state the stores are left in. */
  datatype Step = Step(code: int, msg: Message, created: Option<AssignedOrder>, next: State)

  /** Outcome of a read-only handler: the HTTP status code and the body. */
  datatype Reply<T> = Reply(code: int, body: T)
}
