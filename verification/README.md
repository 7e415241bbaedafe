# Delivery workflow model

A Dafny model of the delivery controller of an order-management backend.
Customers' orders are assigned to delivery drivers ("delivery boys"). Each
order then moves through the lifecycle pending → active → picked → delivered,
and the customer confirms the handover with a one-time code (OTP).

The controller works on three record stores:

- **Orders** are keyed by `id`. Each has its customer, address, package and
  timing details, a `status` and the `assignedDriver`.
- **Assigned orders** are keyed by `order_id`. Each has a `status`, an `otp`,
  the driver's id, name and phone, and a snapshot of the order's details taken
  at assignment.
- **Delivery boys** are table rows looked up by `phonenumber` or `user_id`.
  Each has an `available` flag and an `email`.

Each of the eight request handlers is a pure function of the request fields
and the stores. The three state-changing handlers (`AssignOrder`,
`UpdateOrderStatus`, `VerifyDeliveryOtp`) return a `Records.Step`: the HTTP
status code, the response message, the record returned by assignment, and
the stores they leave behind. The five read-only handlers return a
`Records.Reply`: a code and a body. The three list handlers always answer
200.

Files:

- `optional.dfy`: `Option`, and `Present`, which is JavaScript truthiness for
  request fields. `undefined`, `null` and `""` count as missing.
- `records.dfy`: statuses, the three record types, the notification log and
  response shapes.
- `drivers.dfy`: the driver table. `update` with a filter rewrites every
  matching row. Where several rows match a `findOne`, the model picks the
  first one.
- `delivery_controller.dfy`: the eight handlers.
- `invariants.dfy`: the status invariant, lifecycle guards, frame conditions
  and single use of the code, each for one call.
- `traces.dfy`: three properties along any sequence of assignments, status
  updates and code checks. The status invariant holds throughout. An
  order's code is accepted at most once between assignments. A delivered
  order stays unchanged unless it is reassigned.
- `scenario.dfy`: one order's full life, from assignment to a refused move
  back.

Two behaviours of the source are modelled as written:

- `assignOrder` writes the assignment, the order's new status and driver, and
  the drivers' `assigned` flag before it looks the driver up by phone number.
  So a missing driver answers 404 over stores that have already changed
  (`DeliveryController.AssignOrder`).
- The status guards answer 400, not a separate conflict code. A move from
  active straight to delivered is accepted, and so are same-status updates.

## Model

| member | source | states |
|---|---|---|
| Records.ParseTarget | backend/controllers/deliveryController.js:172-174 | Only "active", "picked" and "delivered" name a target status. Each valid name is the stored name of the status it yields, and "pending" is refused. |
| Drivers.FindFirst | backend/controllers/deliveryController.js:92 | A driver lookup returns a row matching the phone number or user id, and the model picks the first such row. It returns nothing exactly when no row matches. |
| Drivers.SetAvailability | backend/controllers/deliveryController.js:90 | Marking drivers by phone number sets the flag on every row with that number. All other rows are unchanged, and no row's identity or email changes. |
| Drivers.ReleaseDriver | backend/controllers/deliveryController.js:203-206 | Only the first row with the user id becomes available and every other row is unchanged. With no such row, the table is unchanged. |
| Drivers.FindFirstIgnoresAvailability | backend/controllers/deliveryController.js:90-92 | Changing availability flags never changes which row a lookup finds. So the driver check after marking agrees with a check made before it. |
| DeliveryController.FetchPendingOrders | backend/controllers/deliveryController.js:10-25 | The answer is always 200. The list holds an order exactly when it is pending and has a null pickup time. It contains only stored orders. |
| DeliveryController.FetchScheduledOrders | backend/controllers/deliveryController.js:27-42 | The answer is always 200. The list holds an order exactly when it is pending and has a pickup time. It contains only stored orders. |
| WorkflowInvariants.PendingPartition | backend/controllers/deliveryController.js:10-42 | The unscheduled and scheduled lists are disjoint. Their union is exactly the pending orders. |
| DeliveryController.FetchAssignedOrders | backend/controllers/deliveryController.js:44-52 | The answer is always 200. The list holds an assignment exactly when its status is active, picked or delivered. |
| WorkflowInvariants.AssignedListIsEveryAssignment | backend/controllers/deliveryController.js:44-52 | Under the status invariant, the assignment list is every stored assignment. |
| DeliveryController.AssignOrder | backend/controllers/deliveryController.js:54-125 | An unknown order gives 404 and changes nothing. Otherwise the assignment is created with status active, the generated code, the driver fields and a copy of the order's details. The order becomes active with the driver's name, and every driver with that phone is marked assigned. The answer is 201 exactly when some driver has that phone. With no such driver the answer is 404, the writes stay and no mail goes out. On 201 the customer and the first matching driver are mailed, and the created record is returned. |
| WorkflowInvariants.AssignOrderPreservesInv | backend/controllers/deliveryController.js:66-90 | Assignment keeps the invariant: every assignment has an order with the same, non-pending status, and every record is stored under its own key. This holds on the driver-not-found path too. |
| WorkflowInvariants.AssignThenLookup | backend/controllers/deliveryController.js:132-158 | After a successful assignment, the order-id lookup returns the created record with the generated code. The driver's list answers 200 and contains that record. |
| DeliveryController.FetchAssignedOrdersByDriver | backend/controllers/deliveryController.js:132-147 | The result holds exactly the assignments with that driver id. The code is 200 when there is at least one and 404 otherwise. |
| DeliveryController.FetchOrderById | backend/controllers/deliveryController.js:149-163 | The code is 200 with the assignment exactly when the order has one. Otherwise it is 404 with no body. |
| DeliveryController.UpdateOrderStatus | backend/controllers/deliveryController.js:165-231 | The checks run in order: missing field (400), invalid status (400), order or assignment absent (404), already delivered (400), picked back to active (400). Each rejection leaves the stores unchanged. The update is accepted exactly when the move is forward in the lifecycle from a non-delivered status. On acceptance, both statuses become the target and nothing else in the order or assignment stores changes. Delivery releases the driver with the request's user id and mails the customer. Pickup mails the customer the assignment's current code. |
| WorkflowInvariants.GuardsAreForwardMoves | backend/controllers/deliveryController.js:189-195 | For every valid target, the two guards (not delivered; not picked to active) allow exactly the moves that do not go back in the lifecycle and do not leave delivered. |
| WorkflowInvariants.UpdateOrderStatusPreservesInv | backend/controllers/deliveryController.js:197-200 | A status update keeps the order status equal to the assignment status. |
| WorkflowInvariants.DeliveredIsFinal | backend/controllers/deliveryController.js:189-191 | A status update never changes a delivered order, whatever the request. |
| WorkflowInvariants.UpdateNeverRegresses | backend/controllers/deliveryController.js:189-200 | No status update moves an order backwards in the lifecycle. |
| WorkflowInvariants.UpdateKeepsSnapshotsAndCodes | backend/controllers/deliveryController.js:197-200 | A status update changes no key set, assignment snapshot, driver field or one-time code. In orders it changes only the status. |
| WorkflowInvariants.DeliveryReleasesDriver | backend/controllers/deliveryController.js:202-206 | A successful delivery update makes the first driver with the request's user id available. Every other driver row is unchanged. |
| DeliveryController.VerifyDeliveryOtp | backend/controllers/deliveryController.js:238-256 | A missing field gives 400 and an unknown assignment gives 404. A code different from the stored one gives 400. Each rejection leaves the stores unchanged. The answer is 200 exactly when the stored code equals the provided one, and then only that code is cleared. |
| WorkflowInvariants.VerifyDeliveryOtpPreservesInv | backend/controllers/deliveryController.js:255 | A code check keeps the status invariant. |
| WorkflowInvariants.OtpIsSingleUse | backend/controllers/deliveryController.js:251-255 | A code that was just accepted is refused with 400 "invalid OTP" when presented again. |
| WorkflowInvariants.ConsumedCodeRejectsAll | backend/controllers/deliveryController.js:251-253 | Once an assignment's code is cleared, no code check for it succeeds. |
| Traces.ApplyPreservesInv | backend/controllers/deliveryController.js:54-256 | Each state-changing handler keeps the status invariant. |
| Traces.RunPreservesInv | backend/controllers/deliveryController.js:54-256 | The status invariant holds after any sequence of assignments, status updates and code checks. |
| Traces.StepSpendsCode | backend/controllers/deliveryController.js:238-256 | Unless a request reassigns the order, it accepts at most the one code it consumes. It never brings a consumed code back. |
| Traces.CodeAcceptedAtMostOnce | backend/controllers/deliveryController.js:238-256 | Along any run with no new assignment of the order, its code is accepted at most once. It is not accepted at all if it was already consumed. |
| Traces.StepKeepsDelivered | backend/controllers/deliveryController.js:189-191 | Only a new assignment can change a delivered order. |
| Traces.DeliveredStaysDelivered | backend/controllers/deliveryController.js:189-191 | A delivered order stays unchanged along any run that does not reassign it. |
| Scenario.OrderLifecycle | backend/controllers/deliveryController.js:54-256 | One order's life in order: assign (201, active, code stored, driver assigned), picked (code mailed), code check (200, code cleared), delivered (driver available), then a refused move back to active. |

## Left out

- `server.js` is routing, CORS, static files, model syncing and the error middleware. None of it has workflow state.
- The `catch` branches that answer 500 are left out. They stand for store or mail-transport failures, which are outside the model.
- Sending mail is modelled as appending an `Email` to the `outbox` log, with the recipient and what the mail is about. The message texts are not modelled.
- The one-time code generator is not part of this model. `AssignOrder` takes its output as the `otp` argument.
- The two paired reads and the paired write that run concurrently in the status update are modelled as sequential steps.
- `AssignOrder` does not validate its request fields. In the source, an undefined value in a store filter makes the store throw, which lands in the 500 branch. The model takes the fields as strings.
- `AssignOrder`: a repeated assignment of the same order keeps one assignment per order id, and the new one replaces the old. The source would store a second row, and a later lookup by order id would return a store-chosen one. A repeated assignment also sets an already-delivered order back to active, as the source does.
- Drivers.FindFirst: where several driver rows share a phone number or user id, the source's `findOne` returns whichever row the store picks. The model always picks the first row in table order. This choice decides which row `Drivers.ReleaseDriver` frees and which email the assignment mail goes to.
- `DeliveryController.FetchPendingOrders`, `DeliveryController.FetchScheduledOrders`, `DeliveryController.FetchAssignedOrders` and `DeliveryController.FetchAssignedOrdersByDriver` return sets, not lists. The store gives no order for its results.
- `DeliveryController.VerifyDeliveryOtp` compares codes as strings. The source compares with JavaScript strict equality, so a numeric stored code never equals a string from a request body. The generator's return type is outside the model.
- Timestamps maintained by the store (`createdAt`, `updatedAt` on write) are not modelled beyond the copied `createdAt` detail.
- Request fields are modelled as strings. A numeric `0` in a request body, which JavaScript also treats as missing, is not modelled.
