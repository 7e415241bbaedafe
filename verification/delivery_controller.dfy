/** The eight request handlers of the delivery controller, each a pure
    function from the request fields and the current stores to the response
    code and the stores it leaves behind. The mail transport is the
    `outbox` log; the one-time code generator is the `otp` argument of
    `AssignOrder`. */
module DeliveryController {
  import opened Optional
  import opened Records
  import opened Drivers

  // ---------------------------------------------------------------------
  // Order queries
  // ---------------------------------------------------------------------

  /** A fresh customer request: pending, with no pickup slot yet. */
  predicate IsUnscheduled(o: Order)
  {
    o.status == Pending && o.details.pickupTime.None?
  }

  /** A pending request whose pickup slot is already fixed. */
  predicate IsScheduled(o: Order)
  {
    o.status == Pending && o.details.pickupTime.Some?
  }

  /** `fetchPendingOrders`: always answered with 200 and this list. */
  function FetchPendingOrders(s: State): (r: Reply<set<Order>>)
    ensures r.code == OK
    ensures forall id :: id in s.orders ==> (s.orders[id] in r.body <==> IsUnscheduled(s.orders[id]))
    ensures forall o :: o in r.body ==> o in s.orders.Values
  {
    Reply(OK, set o | o in s.orders.Values && IsUnscheduled(o))
  }

  /** `fetchScheduledOrders`: always answered with 200 and this list. */
  function FetchScheduledOrders(s: State): (r: Reply<set<Order>>)
    ensures r.code == OK
    ensures forall id :: id in s.orders ==> (s.orders[id] in r.body <==> IsScheduled(s.orders[id]))
    ensures forall o :: o in r.body ==> o in s.orders.Values
  {
    Reply(OK, set o | o in s.orders.Values && IsScheduled(o))
  }

  /** `fetchAssignedOrders`: every assignment whose status is active, picked
      or delivered; always answered with 200. */
  function FetchAssignedOrders(s: State): (r: Reply<set<AssignedOrder>>)
    ensures r.code == OK
    ensures forall k :: k in s.assignments ==> (s.assignments[k] in r.body <==> s.assignments[k].status != Pending)
    ensures forall a :: a in r.body ==> a in s.assignments.Values
  {
    assert forall k :: k in s.assignments ==>
      (s.assignments[k].status in {Active, Picked, Delivered} <==> s.assignments[k].status != Pending);
    Reply(OK, set a | a in s.assignments.Values && a.status in {Active, Picked, Delivered})
  }

  // ---------------------------------------------------------------------
  // Assignment
  // ---------------------------------------------------------------------

  datatype AssignRequest = AssignRequest(
    orderId: string,
    driverPhoneNumber: string,
    driverName: string,
    userId: string)

  /** Some driver row carries this phone number. */
  predicate HasDriverWithPhone(ds: seq<DeliveryBoy>, phone: string)
  {
    exists i :: 0 <= i < |ds| && ds[i].phonenumber == phone
  }

  /** `assignOrder`. The order must exist. The assignment record, the order's
      new status and driver, and the drivers' `assigned` flag are all written
      before the driver is looked up by phone, so a missing driver answers
      404 over stores that have already changed. Only after the lookup
      succeeds are the customer and the driver mailed. */
  function AssignOrder(s: State, req: AssignRequest, otp: string): (r: Step)
    ensures req.orderId !in s.orders ==> r == Step(NOT_FOUND, OrderNotFound, None, s)
    ensures r.code == CREATED <==> req.orderId in s.orders && HasDriverWithPhone(s.drivers, req.driverPhoneNumber)
    ensures req.orderId in s.orders ==> r.next.assignments.Keys == s.assignments.Keys + {req.orderId}
    ensures req.orderId in s.orders ==>
              var id := req.orderId;
              var a := r.next.assignments[id];
              && a.orderId == id && a.status == Active && a.otp == Some(otp)
              && a.driverId == req.userId && a.driverName == req.driverName
              && a.driverPhoneNumber == req.driverPhoneNumber
              && a.snapshot == s.orders[id].details
              && (forall k :: k in s.assignments && k != id ==> r.next.assignments[k] == s.assignments[k])
    ensures req.orderId in s.orders ==>
              var id := req.orderId;
              && r.next.orders == s.orders[id := s.orders[id].(status := Active, assignedDriver := Some(req.driverName))]
    ensures req.orderId in s.orders ==>
              && |r.next.drivers| == |s.drivers|
              && (forall i :: 0 <= i < |s.drivers| ==> SameDriver(r.next.drivers[i], s.drivers[i]))
              && (forall i :: 0 <= i < |s.drivers| ==>
                    r.next.drivers[i].available ==
                    (if s.drivers[i].phonenumber == req.driverPhoneNumber then Assigned else s.drivers[i].available))
    ensures req.orderId in s.orders && !HasDriverWithPhone(s.drivers, req.driverPhoneNumber) ==>
              && r.code == NOT_FOUND && r.msg == DriverNotFound && r.created == None
              && r.next.outbox == s.outbox
    ensures r.code == CREATED ==>
              && r.msg == DriverAssigned
              && r.created == Some(r.next.assignments[req.orderId])
              && forall i :: IsFirst(s.drivers, i, ByPhone(req.driverPhoneNumber)) ==>
                   r.next.outbox == s.outbox + [
                     Email(s.orders[req.orderId].details.email,
                           AssignedToCustomer(req.orderId, req.driverName, req.driverPhoneNumber)),
                     Email(s.drivers[i].email, AssignedToDriver(req.orderId))]
  {
    if req.orderId !in s.orders then Step(NOT_FOUND, OrderNotFound, None, s)
    else
      var order := s.orders[req.orderId];
      var created := AssignedOrder(req.orderId, req.userId, req.driverName, req.driverPhoneNumber,
                                   Active, Some(otp), order.details);
      var orders := s.orders[req.orderId := order.(status := Active, assignedDriver := Some(req.driverName))];
      var drivers := SetAvailability(s.drivers, ByPhone(req.driverPhoneNumber), Assigned);
      var written := State(orders, s.assignments[req.orderId := created], drivers, s.outbox);
      FindFirstIgnoresAvailability(drivers, s.drivers, ByPhone(req.driverPhoneNumber));
      match FindFirst(drivers, ByPhone(req.driverPhoneNumber))
      case None => Step(NOT_FOUND, DriverNotFound, None, written)
      case Some(i) =>
        var mails := [
          Email(order.details.email, AssignedToCustomer(req.orderId, req.driverName, req.driverPhoneNumber)),
          Email(drivers[i].email, AssignedToDriver(req.orderId))];
        Step(CREATED, DriverAssigned, Some(created), written.(outbox := s.outbox + mails))
  }

  // ---------------------------------------------------------------------
  // Assignment lookups
  // ---------------------------------------------------------------------

  /** `fetchAssignedOrdersByDriver`: the driver's assignments, or 404 when
      there are none. */
  function FetchAssignedOrdersByDriver(s: State, driverId: string): (r: Reply<set<AssignedOrder>>)
    ensures forall k :: k in s.assignments ==>
              (s.assignments[k] in r.body <==> s.assignments[k].driverId == driverId)
    ensures forall a :: a in r.body ==> a in s.assignments.Values && a.driverId == driverId
    ensures r.code == OK <==> exists k :: k in s.assignments && s.assignments[k].driverId == driverId
    ensures r.code == OK || r.code == NOT_FOUND
  {
    var found := set a | a in s.assignments.Values && a.driverId == driverId;
    if found != {} then Reply(OK, found)
    else Reply(NOT_FOUND, found)
  }

  /** `fetchOrderById`: the assignment of an order, or 404. */
  function FetchOrderById(s: State, orderId: string): (r: Reply<Option<AssignedOrder>>)
    ensures r.code == OK <==> orderId in s.assignments
    ensures r.code == OK ==> r.body == Some(s.assignments[orderId])
    ensures r.code != OK ==> r.code == NOT_FOUND && r.body == None
  {
    if orderId in s.assignments then Reply(OK, Some(s.assignments[orderId]))
    else Reply(NOT_FOUND, None)
  }

  // ---------------------------------------------------------------------
  // Status update
  // ---------------------------------------------------------------------

  datatype UpdateRequest = UpdateRequest(
    orderId: Option<string>,
    status: Option<string>,
    driverUserId: Option<string>)

  predicate HasAllFields(req: UpdateRequest)
  {
    Present(req.orderId) && Present(req.status) && Present(req.driverUserId)
  }

  /** The target status, when the request names a valid one. */
  function Target(req: UpdateRequest): Option<Status>
  {
    if Present(req.status) then ParseTarget(req.status.value) else None
  }

  /** The request passed the field checks and both records of the order
      exist. */
  predicate Located(s: State, req: UpdateRequest)
  {
    && HasAllFields(req)
    && Target(req).Some?
    && req.orderId.value in s.orders
    && req.orderId.value in s.assignments
  }

  /** Reference transition relation: a status may move to any status at
      least as far along the lifecycle, except that delivered is final. */
  predicate ForwardMove(current: Status, target: Status)
  {
    current != Delivered && Rank(current) <= Rank(target)
  }

  /** A rejected request: the stores are left untouched. */
  function Reject(code: int, msg: Message, s: State): Step
  {
    Step(code, msg, None, s)
  }

  /** `updateOrderStatus`. Checks, in this order: all three fields present,
      a valid target, order and assignment both exist, the order not yet
      delivered, and no move back from picked to active. Only then are both
      statuses written; delivery also releases the driver found by user id
      (a missing driver is tolerated) and mails the customer, and pickup
      mails the customer the assignment's current code. */
  function UpdateOrderStatus(s: State, req: UpdateRequest): (r: Step)
    ensures !HasAllFields(req) ==> r == Reject(BAD_REQUEST, MissingFields, s)
    ensures HasAllFields(req) && Target(req).None? ==> r == Reject(BAD_REQUEST, InvalidStatus, s)
    ensures HasAllFields(req) && Target(req).Some? && !Located(s, req) ==>
              r == Reject(NOT_FOUND, OrderOrAssignmentNotFound, s)
    ensures Located(s, req) && s.orders[req.orderId.value].status == Delivered ==>
              r == Reject(BAD_REQUEST, AlreadyDelivered, s)
    ensures Located(s, req) && s.orders[req.orderId.value].status == Picked && Target(req) == Some(Active) ==>
              r == Reject(BAD_REQUEST, CannotRevert, s)
    ensures r.code == OK <==> Located(s, req) && ForwardMove(s.orders[req.orderId.value].status, Target(req).value)
    ensures r.code != OK ==> r.next == s
    ensures r.code == OK ==>
              var id := req.orderId.value;
              var t := Target(req).value;
              && r.msg == StatusUpdated && r.created == None
              && r.next.orders == s.orders[id := s.orders[id].(status := t)]
              && r.next.assignments == s.assignments[id := s.assignments[id].(status := t)]
              && r.next.drivers == (if t == Delivered then ReleaseDriver(s.drivers, req.driverUserId.value) else s.drivers)
    ensures r.code == OK && Target(req) == Some(Active) ==> r.next.outbox == s.outbox
    ensures r.code == OK && Target(req) == Some(Picked) ==>
              var id := req.orderId.value;
              r.next.outbox == s.outbox + [Email(s.orders[id].details.email, OtpToCustomer(id, s.assignments[id].otp))]
    ensures r.code == OK && Target(req) == Some(Delivered) ==>
              var id := req.orderId.value;
              r.next.outbox == s.outbox + [Email(s.orders[id].details.email, DeliveredToCustomer(id))]
  {
    if !(Present(req.orderId) && Present(req.status) && Present(req.driverUserId)) then
      Reject(BAD_REQUEST, MissingFields, s)
    else if req.status.value !in ["active", "picked", "delivered"] then
      Reject(BAD_REQUEST, InvalidStatus, s)
    else
      var id := req.orderId.value;
      var target := ParseTarget(req.status.value).value;
      if id !in s.orders || id !in s.assignments then
        Reject(NOT_FOUND, OrderOrAssignmentNotFound, s)
      else
        var current := s.orders[id];
        var record := s.assignments[id];
        if current.status == Delivered then
          Reject(BAD_REQUEST, AlreadyDelivered, s)
        else if current.status == Picked && target == Active then
          Reject(BAD_REQUEST, CannotRevert, s)
        else
          var written := s.(orders := s.orders[id := current.(status := target)],
                            assignments := s.assignments[id := record.(status := target)]);
          var released :=
            if target == Delivered then
              written.(drivers := ReleaseDriver(s.drivers, req.driverUserId.value),
                       outbox := s.outbox + [Email(current.details.email, DeliveredToCustomer(id))])
            else written;
          var notified :=
            if target == Picked then
              released.(outbox := released.outbox + [Email(current.details.email, OtpToCustomer(id, record.otp))])
            else released;
          Step(OK, StatusUpdated, None, notified)
  }

  // ---------------------------------------------------------------------
  // One-time code check
  // ---------------------------------------------------------------------

  datatype VerifyRequest = VerifyRequest(orderId: Option<string>, providedOtp: Option<string>)

  /** `verifyDeliveryOtp`: both fields required, the assignment must exist,
      and the stored code must equal the provided one exactly; a match
      clears the stored code, so it can be used only once. */
  function VerifyDeliveryOtp(s: State, req: VerifyRequest): (r: Step)
    ensures !(Present(req.orderId) && Present(req.providedOtp)) ==> r == Reject(BAD_REQUEST, MissingFields, s)
    ensures Present(req.orderId) && Present(req.providedOtp) && req.orderId.value !in s.assignments ==>
              r == Reject(NOT_FOUND, AssignmentNotFound, s)
    ensures Present(req.orderId) && Present(req.providedOtp) && req.orderId.value in s.assignments
              && s.assignments[req.orderId.value].otp != req.providedOtp ==>
              r == Reject(BAD_REQUEST, InvalidOtp, s)
    ensures r.code == OK <==>
              Present(req.orderId) && Present(req.providedOtp) && req.orderId.value in s.assignments
              && s.assignments[req.orderId.value].otp == req.providedOtp
    ensures r.code != OK ==> r.next == s
    ensures r.code == OK ==>
              var id := req.orderId.value;
              && r.msg == OtpVerified && r.created == None
              && r.next.assignments == s.assignments[id := s.assignments[id].(otp := None)]
              && r.next.orders == s.orders && r.next.drivers == s.drivers && r.next.outbox == s.outbox
  {
    if !Present(req.orderId) || !Present(req.providedOtp) then
      Reject(BAD_REQUEST, MissingFields, s)
    else if req.orderId.value !in s.assignments then
      Reject(NOT_FOUND, AssignmentNotFound, s)
    else
      var record := s.assignments[req.orderId.value];
      if record.otp != Some(req.providedOtp.value) then
        Reject(BAD_REQUEST, InvalidOtp, s)
      else
        Step(OK, OtpVerified, None,
             s.(assignments := s.assignments[req.orderId.value := record.(otp := None)]))
  }
}
