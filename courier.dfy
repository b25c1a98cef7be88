/** A courier: its stored record and the `Courier` class (src/models/Courier.js). */
module CourierModel {
  import opened Wrappers
  import opened Distance

  /** The fields of a courier as the courier store holds them. */
  datatype CourierRecord = CourierRecord(
    id: string,
    name: string,
    location: Point,
    isAvailable: bool,
    currentOrderId: Option<string>)

  /** A courier is available exactly when it carries no order. */
  predicate AvailabilityConsistent(c: CourierRecord) {
    c.isAvailable <==> c.currentOrderId.None?
  }

  /** The record after `markAsUnavailable(orderId)`. */
  function MarkedUnavailable(c: CourierRecord, orderId: string): (r: CourierRecord)
    ensures AvailabilityConsistent(r) && !r.isAvailable && r.currentOrderId == Some(orderId)
    ensures r.id == c.id && r.name == c.name && r.location == c.location
  {
    c.(isAvailable := false, currentOrderId := Some(orderId))
  }

  /** The record after `markAsAvailable()`. */
  function MarkedAvailable(c: CourierRecord): (r: CourierRecord)
    ensures AvailabilityConsistent(r) && r.isAvailable && r.currentOrderId == None
    ensures r.id == c.id && r.name == c.name && r.location == c.location
  {
    c.(isAvailable := true, currentOrderId := None)
  }

  /** Marking a courier available undoes marking it unavailable. */
  lemma MarkRoundTrip(c: CourierRecord, orderId: string)
    requires c.isAvailable && AvailabilityConsistent(c)
    ensures MarkedAvailable(MarkedUnavailable(c, orderId)) == c
  {
  }

  class Courier {
    var id: string
    var name: string
    var location: Point
    var isAvailable: bool
    var currentOrderId: Option<string>

    function Record(): CourierRecord
      reads this
    {
      CourierRecord(id, name, location, isAvailable, currentOrderId)
    }

    /** `new Courier(id, name, location)`; the location defaults to (0, 0). */
    constructor (id: string, name: string, location: Option<Point>)
      ensures Record() == CourierRecord(id, name, location.GetOr(Point(0, 0)), true, None)
      ensures AvailabilityConsistent(Record())
    {
      this.id := id;
      this.name := name;
      this.location := location.GetOr(Point(0, 0));
      this.isAvailable := true;
      this.currentOrderId := None;
    }

    method MarkAsUnavailable(orderId: string)
      modifies this
      ensures Record() == MarkedUnavailable(old(Record()), orderId)
    {
      isAvailable := false;
      currentOrderId := Some(orderId);
    }

    method MarkAsAvailable()
      modifies this
      ensures Record() == MarkedAvailable(old(Record()))
    {
      isAvailable := true;
      currentOrderId := None;
    }
  }
}
