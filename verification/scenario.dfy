/** One order's whole life: assignment, pickup with the code mailed to the
    customer, code check, delivery, and a refused move back to active. */
module Scenario {
  import opened Optional
  import opened Records
  import opened DeliveryController

  const Carol := Details("Carol", "carol@example.com", "555-9", "1 Main St", "2 Oak Ave",
                         "books", "2kg", "2024-05-01", None, "", "2024-04-30",
                         "555-7", "Dan", "ring twice")
  const Alice := DeliveryBoy("d1", "555-1", "alice@example.com", Available)
  const Start := State(map["42" := Order("42", Carol, Pending, None)], map[], [Alice], [])

  lemma OrderLifecycle()
    ensures var s1 := AssignOrder(Start, AssignRequest("42", "555-1", "Alice", "d1"), "4821");
            var s2 := UpdateOrderStatus(s1.next, UpdateRequest(Some("42"), Some("picked"), Some("d1")));
            var s3 := VerifyDeliveryOtp(s2.next, VerifyRequest(Some("42"), Some("4821")));
            var s4 := UpdateOrderStatus(s3.next, UpdateRequest(Some("42"), Some("delivered"), Some("d1")));
            var s5 := UpdateOrderStatus(s4.next, UpdateRequest(Some("42"), Some("active"), Some("d1")));
            && s1.code == CREATED
            && s1.next.orders["42"].status == Active
            && s1.next.assignments["42"].otp == Some("4821")
            && s1.next.drivers[0].available == Assigned
            && s2.code == OK
            && s2.next.orders["42"].status == Picked && s2.next.assignments["42"].status == Picked
            && s2.next.outbox[|s2.next.outbox| - 1] == Email("carol@example.com", OtpToCustomer("42", Some("4821")))
            && s3.code == OK && s3.next.assignments["42"].otp == None
            && s4.code == OK
            && s4.next.orders["42"].status == Delivered && s4.next.assignments["42"].status == Delivered
            && s4.next.drivers[0].available == Available
            && s5.code == BAD_REQUEST && s5.msg == AlreadyDelivered && s5.next == s4.next
  {
  }
}
