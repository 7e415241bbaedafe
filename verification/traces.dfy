/** Sequences of state-changing requests, and the properties that hold
    along any of them: the status invariant, delivered as a final state,
    and at most one accepted code per assignment. */
module Traces {
  import opened Optional
  import opened Records
  import opened DeliveryController
  import opened WorkflowInvariants

  /** One state-changing request; `otp` is what the code generator produced
      for that assignment. */
  datatype Command =
    | Assign(areq: AssignRequest, otp: string)
    | Update(ureq: UpdateRequest)
    | Verify(vreq: VerifyRequest)

  function Apply(s: State, c: Command): Step
  {
    match c
    case Assign(areq, otp) => AssignOrder(s, areq, otp)
    case Update(ureq) => UpdateOrderStatus(s, ureq)
    case Verify(vreq) => VerifyDeliveryOtp(s, vreq)
  }

  /** The stores after handling the requests in order. */
  function Run(s: State, cs: seq<Command>): State
    decreases |cs|
  {
    if |cs| == 0 then s else Run(Apply(s, cs[0]).next, cs[1..])
  }

  /** The command (re)assigns order `id`. */
  predicate AssignsOrder(c: Command, id: string)
  {
    c.Assign? && c.areq.orderId == id
  }

  /** The command is an accepted code check for order `id`. */
  predicate AcceptedCode(s: State, c: Command, id: string)
  {
    c.Verify? && c.vreq.orderId == Some(id) && Apply(s, c).code == OK
  }

  /** How many code checks for order `id` are accepted along the run. */
  function AcceptedCodes(s: State, cs: seq<Command>, id: string): nat
    decreases |cs|
  {
    if |cs| == 0 then 0
    else (if AcceptedCode(s, cs[0], id) then 1 else 0) + AcceptedCodes(Apply(s, cs[0]).next, cs[1..], id)
  }

  /** 1 while order `id` has an unconsumed code, 0 otherwise. */
  function CodesLeft(s: State, id: string): nat
  {
    if id in s.assignments && s.assignments[id].otp.Some? then 1 else 0
  }

  /** Any request keeps the status invariant. */
  lemma ApplyPreservesInv(s: State, c: Command)
    requires Inv(s)
    ensures Inv(Apply(s, c).next)
  {
  }

  /** The invariant holds after any sequence of requests. */
  lemma {:induction false} RunPreservesInv(s: State, cs: seq<Command>)
    requires Inv(s)
    ensures Inv(Run(s, cs))
    decreases |cs|
  {
    if |cs| > 0 {
      ApplyPreservesInv(s, cs[0]);
      RunPreservesInv(Apply(s, cs[0]).next, cs[1..]);
    }
  }

  /** One request that does not reassign `id` can accept at most the code
      it consumes, and never brings a consumed code back. */
  lemma StepSpendsCode(s: State, c: Command, id: string)
    requires !AssignsOrder(c, id)
    ensures (if AcceptedCode(s, c, id) then 1 else 0) + CodesLeft(Apply(s, c).next, id) <= CodesLeft(s, id)
  {
  }

  /** Between two assignments of an order, its code is accepted at most
      once, and not at all once it has been consumed. */
  lemma {:induction false} CodeAcceptedAtMostOnce(s: State, cs: seq<Command>, id: string)
    requires forall i :: 0 <= i < |cs| ==> !AssignsOrder(cs[i], id)
    ensures AcceptedCodes(s, cs, id) <= CodesLeft(s, id)
    decreases |cs|
  {
    if |cs| > 0 {
      StepSpendsCode(s, cs[0], id);
      CodeAcceptedAtMostOnce(Apply(s, cs[0]).next, cs[1..], id);
    }
  }

  /** No request other than a new assignment changes a delivered order. */
  lemma StepKeepsDelivered(s: State, c: Command, id: string)
    requires !AssignsOrder(c, id)
    requires id in s.orders && s.orders[id].status == Delivered
    ensures id in Apply(s, c).next.orders && Apply(s, c).next.orders[id] == s.orders[id]
  {
  }

  /** Delivered is final along any run that does not reassign the order. */
  lemma {:induction false} DeliveredStaysDelivered(s: State, cs: seq<Command>, id: string)
    requires forall i :: 0 <= i < |cs| ==> !AssignsOrder(cs[i], id)
    requires id in s.orders && s.orders[id].status == Delivered
    ensures id in Run(s, cs).orders && Run(s, cs).orders[id] == s.orders[id]
    decreases |cs|
  {
    if |cs| > 0 {
      StepKeepsDelivered(s, cs[0], id);
      DeliveredStaysDelivered(Apply(s, cs[0]).next, cs[1..], id);
    }
  }
}
