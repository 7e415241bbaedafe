/** The driver table as the workflow sees it: rows in table order, found by
    phone number or by user id. `update` with a `where` filter rewrites
    every matching row. `findOne` has no ordering, so when several rows
    match, the store picks one; this model fixes that choice as the first
    matching row. */
module Drivers {
  import opened Optional
  import opened Records

  /** The two columns the workflow uses to select driver rows. */
  datatype DriverKey = ByPhone(phone: string) | ByUserId(userId: string)

  predicate Matches(d: DeliveryBoy, k: DriverKey)
  {
    match k
    case ByPhone(p) => d.phonenumber == p
    case ByUserId(u) => d.userId == u
  }

  /** Two rows that differ at most in their availability flag. */
  predicate SameDriver(d: DeliveryBoy, e: DeliveryBoy)
  {
    d.userId == e.userId && d.phonenumber == e.phonenumber && d.email == e.email
  }

  /** Row `i` is the first row selected by `k`. */
  predicate IsFirst(ds: seq<DeliveryBoy>, i: int, k: DriverKey)
  {
    0 <= i < |ds| && Matches(ds[i], k) && forall j :: 0 <= j < i ==> !Matches(ds[j], k)
  }

  /** `findOne`, with the store's choice among several matching rows fixed
      as the first one: the index of the first row selected by `k`, if any. */
  function FindFirst(ds: seq<DeliveryBoy>, k: DriverKey): (r: Option<nat>)
    ensures r.Some? ==> r.value < |ds| && Matches(ds[r.value], k)
    ensures r.Some? ==> forall j :: 0 <= j < r.value ==> !Matches(ds[j], k)
    ensures r.None? <==> forall j :: 0 <= j < |ds| ==> !Matches(ds[j], k)
  {
    if |ds| == 0 then None
    else if Matches(ds[0], k) then Some(0)
    else
      match FindFirst(ds[1..], k)
      case None => None
      case Some(i) => Some(i + 1)
  }

  /** `update({ available: a }, { where: k })`: every selected row gets the
      new flag, every other row is left as it was. */
  function SetAvailability(ds: seq<DeliveryBoy>, k: DriverKey, a: Availability): (r: seq<DeliveryBoy>)
    ensures |r| == |ds|
    ensures forall i :: 0 <= i < |ds| ==> SameDriver(r[i], ds[i])
    ensures forall i :: 0 <= i < |ds| && Matches(ds[i], k) ==> r[i].available == a
    ensures forall i :: 0 <= i < |ds| && !Matches(ds[i], k) ==> r[i] == ds[i]
  {
    if |ds| == 0 then []
    else
      var head := if Matches(ds[0], k) then ds[0].(available := a) else ds[0];
      [head] + SetAvailability(ds[1..], k, a)
  }

  /** `findOne({ where: { user_id } })` followed by `driver.update({ available:
      'available' })`: only the row `findOne` picks (here the first row with
      that user id) is released, and a missing driver leaves the table as it
      was. */
  function ReleaseDriver(ds: seq<DeliveryBoy>, userId: string): (r: seq<DeliveryBoy>)
    ensures |r| == |ds|
    ensures forall i :: 0 <= i < |ds| ==> SameDriver(r[i], ds[i])
    ensures (forall j :: 0 <= j < |ds| ==> ds[j].userId != userId) ==> r == ds
    ensures forall i :: IsFirst(ds, i, ByUserId(userId)) ==>
              r[i] == ds[i].(available := Available)
              && (forall j :: 0 <= j < |ds| && j != i ==> r[j] == ds[j])
  {
    match FindFirst(ds, ByUserId(userId))
    case None => ds
    case Some(i) => ds[i := ds[i].(available := Available)]
  }

  /** Rewriting availability never changes which row a lookup selects. */
  lemma FindFirstIgnoresAvailability(ds: seq<DeliveryBoy>, es: seq<DeliveryBoy>, k: DriverKey)
    requires |ds| == |es|
    requires forall i :: 0 <= i < |ds| ==> SameDriver(ds[i], es[i])
    ensures FindFirst(ds, k) == FindFirst(es, k)
  {
  }
}
