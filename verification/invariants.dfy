/** Properties of single handler calls: the order/assignment status
    invariant, the lifecycle guards, frame conditions and the single use of
    the one-time code. */
module WorkflowInvariants {
  import opened Optional
  import opened Records
  import opened Drivers
  import opened DeliveryController

  /** Every assignment belongs to an existing order, is past pending, and
      carries the same status as its order. */
  predicate StatusesInSync(s: State)
  {
    forall k :: k in s.assignments ==>
      && k in s.orders
      && s.assignments[k].status != Pending
      && s.orders[k].status == s.assignments[k].status
  }

  /** Each record is stored under its own key. */
  predicate KeysMatch(s: State)
  {
    && (forall k :: k in s.orders ==> s.orders[k].id == k)
    && (forall k :: k in s.assignments ==> s.assignments[k].orderId == k)
  }

  predicate Inv(s: State)
  {
    StatusesInSync(s) && KeysMatch(s)
  }

  /** Two versions of an assignment that agree on everything except the
      status and the one-time code, the only fields that change after it
      is created. */
  predicate SameSnapshot(a: AssignedOrder, b: AssignedOrder)
  {
    && a.orderId == b.orderId
    && a.driverId == b.driverId
    && a.driverName == b.driverName
    && a.driverPhoneNumber == b.driverPhoneNumber
    && a.snapshot == b.snapshot
  }

  // ---------------------------------------------------------------------
  // Queries
  // ---------------------------------------------------------------------

  /** The unscheduled and the scheduled lists never share an order, and
      together they are exactly the pending orders. */
  lemma PendingPartition(s: State)
    ensures FetchPendingOrders(s).body !! FetchScheduledOrders(s).body
    ensures forall o :: o in FetchPendingOrders(s).body + FetchScheduledOrders(s).body
              <==> o in s.orders.Values && o.status == Pending
  {
  }

  /** With the invariant, the assignment list is every assignment ever made. */
  lemma AssignedListIsEveryAssignment(s: State)
    requires Inv(s)
    ensures FetchAssignedOrders(s).body == s.assignments.Values
  {
  }

  // ---------------------------------------------------------------------
  // Assignment
  // ---------------------------------------------------------------------

  /** Assignment keeps the status invariant, even on the path that answers
      404 for a missing driver after writing. */
  lemma AssignOrderPreservesInv(s: State, req: AssignRequest, otp: string)
    requires Inv(s)
    ensures Inv(AssignOrder(s, req, otp).next)
  {
  }

  /** A successful assignment is visible to the order lookup and to the
      driver's list. */
  lemma AssignThenLookup(s: State, req: AssignRequest, otp: string)
    requires AssignOrder(s, req, otp).code == CREATED
    ensures var r := AssignOrder(s, req, otp);
            && FetchOrderById(r.next, req.orderId) == Reply(OK, r.created)
            && r.created.value.otp == Some(otp)
            && FetchAssignedOrdersByDriver(r.next, req.userId).code == OK
            && r.created.value in FetchAssignedOrdersByDriver(r.next, req.userId).body
  {
  }

  // ---------------------------------------------------------------------
  // Status update
  // ---------------------------------------------------------------------

  /** The handler's guard ladder (not delivered; not picked back to active)
      accepts exactly the forward moves, for every valid target. */
  lemma GuardsAreForwardMoves(current: Status, target: Status)
    requires target != Pending
    ensures (current != Delivered && !(current == Picked && target == Active)) <==> ForwardMove(current, target)
  {
  }

  lemma UpdateOrderStatusPreservesInv(s: State, req: UpdateRequest)
    requires Inv(s)
    ensures Inv(UpdateOrderStatus(s, req).next)
  {
  }

  /** A delivered order is never changed by a status update, whatever the
      request. */
  lemma DeliveredIsFinal(s: State, req: UpdateRequest, id: string)
    requires id in s.orders && s.orders[id].status == Delivered
    ensures var r := UpdateOrderStatus(s, req);
            id in r.next.orders && r.next.orders[id] == s.orders[id]
  {
  }

  /** A status update never moves any order backwards in the lifecycle. */
  lemma UpdateNeverRegresses(s: State, req: UpdateRequest, id: string)
    requires id in s.orders
    ensures var r := UpdateOrderStatus(s, req);
            id in r.next.orders && Rank(s.orders[id].status) <= Rank(r.next.orders[id].status)
  {
  }

  /** A status update touches neither the one-time codes nor the snapshots,
      nor any order's details or driver. */
  lemma UpdateKeepsSnapshotsAndCodes(s: State, req: UpdateRequest)
    ensures var r := UpdateOrderStatus(s, req);
            && r.next.assignments.Keys == s.assignments.Keys
            && r.next.orders.Keys == s.orders.Keys
            && (forall k :: k in s.assignments ==>
                  SameSnapshot(r.next.assignments[k], s.assignments[k])
                  && r.next.assignments[k].otp == s.assignments[k].otp)
            && (forall k :: k in s.orders ==>
                  r.next.orders[k] == s.orders[k].(status := r.next.orders[k].status))
  {
  }

  /** Delivery releases the first driver row with the request's user id and
      leaves every other row alone; with no such driver it still succeeds. */
  lemma DeliveryReleasesDriver(s: State, req: UpdateRequest, i: nat)
    requires UpdateOrderStatus(s, req).code == OK && Target(req) == Some(Delivered)
    requires IsFirst(s.drivers, i, ByUserId(req.driverUserId.value))
    ensures var ds := UpdateOrderStatus(s, req).next.drivers;
            && |ds| == |s.drivers|
            && ds[i].available == Available
            && forall j :: 0 <= j < |ds| && j != i ==> ds[j] == s.drivers[j]
  {
  }

  // ---------------------------------------------------------------------
  // One-time code
  // ---------------------------------------------------------------------

  lemma VerifyDeliveryOtpPreservesInv(s: State, req: VerifyRequest)
    requires Inv(s)
    ensures Inv(VerifyDeliveryOtp(s, req).next)
  {
  }

  /** A code that has just been accepted is refused when presented again. */
  lemma OtpIsSingleUse(s: State, req: VerifyRequest)
    requires VerifyDeliveryOtp(s, req).code == OK
    ensures var again := VerifyDeliveryOtp(VerifyDeliveryOtp(s, req).next, req);
            again.code == BAD_REQUEST && again.msg == InvalidOtp
  {
  }

  /** Once an assignment's code is consumed, no code is accepted for it. */
  lemma ConsumedCodeRejectsAll(s: State, req: VerifyRequest)
    requires Present(req.orderId) && req.orderId.value in s.assignments
    requires s.assignments[req.orderId.value].otp == None
    ensures VerifyDeliveryOtp(s, req).code != OK
  {
  }
}
