/**
 * Client scenarios over the services, as the repository's test drivers
 * exercise them: a courier reserved twice, a courier released and reserved
 * again, a Normal order that finds a courier, an Express order out of
 * everyone's range, and a burst of order creations that never hands one
 * courier two active orders.
 */
module Scenarios {
  import opened Wrappers
  import opened JsValues
  import opened Distance
  import opened Validators
  import opened CourierModel
  import opened OrderModel
  import opened Database
  import opened CourierService
  import opened OrderService

  /**
   * Reserving a free courier succeeds once; a second reservation fails while
   * the first is in flight, and still fails after the lock is cleared because
   * the courier is no longer available.
   */
  method ReserveTwice(reg: Registry, courierId: string, first: string, second: string)
    returns (a: Result<CourierRecord, CourierError>, b: Result<CourierRecord, CourierError>, c: Result<CourierRecord, CourierError>)
    requires reg.Valid() && courierId in reg.db.couriers && reg.db.couriers[courierId].isAvailable
    requires courierId !in reg.assignmentLock
    modifies reg, reg.db
    ensures a.Ok? && a.value.currentOrderId == Some(first) && !a.value.isAvailable
    ensures b == Err(CurrentlyBeingAssigned)
    ensures c == Err(CourierNotAvailable)
    ensures courierId in reg.db.couriers && reg.db.couriers[courierId] == a.value
  {
    a := reg.AssignCourierToOrder(courierId, first);
    b := reg.AssignCourierToOrder(courierId, second);
    reg.ClearLock(courierId);
    c := reg.AssignCourierToOrder(courierId, second);
  }

  /** After a release and the lock clearing, the courier can be reserved again. */
  method ReleaseThenReserve(reg: Registry, courierId: string, orderId: string)
    returns (released: Outcome<CourierError>, again: Result<CourierRecord, CourierError>)
    requires reg.Valid() && courierId in reg.db.couriers
    modifies reg, reg.db
    ensures released == Pass
    ensures again.Ok? && again.value.currentOrderId == Some(orderId)
  {
    released := reg.ReleaseCourier(courierId);
    reg.ClearLock(courierId);
    again := reg.AssignCourierToOrder(courierId, orderId);
  }

  /** No two active orders are held by the same courier. */
  ghost predicate NoSharedCourier(orders: map<string, OrderRecord>) {
    forall o1, o2 ::
      (o1 in orders && o2 in orders && o1 != o2 &&
       IsActive(orders[o1].state) && IsActive(orders[o2].state) && orders[o1].courierId.Some?) ==>
      orders[o1].courierId != orders[o2].courierId
  }

  /** Linked stores never share a courier between active orders. */
  lemma LinkedNoSharedCourier(couriers: map<string, CourierRecord>, orders: map<string, OrderRecord>)
    requires Linked(couriers, orders)
    ensures NoSharedCourier(orders)
  {
    forall o1, o2 | o1 in orders && o2 in orders && o1 != o2 &&
      IsActive(orders[o1].state) && IsActive(orders[o2].state) && orders[o1].courierId.Some?
      ensures orders[o1].courierId != orders[o2].courierId
    {
      LinkedExclusive(couriers, orders, o1, o2);
    }
  }

  /**
   * A burst of `createOrder` calls, one per input, under fresh ids: however
   * the matches fall, no courier ends up with two active orders.
   */
  method RapidCreates(reg: Registry, inputs: seq<OrderInput>, ids: seq<string>, now: int)
    returns (results: seq<Result<Created, CreateError>>)
    requires reg.Valid() && Linked(reg.db.couriers, reg.db.orders)
    requires |ids| == |inputs|
    requires forall i, j :: 0 <= i < j < |ids| ==> ids[i] != ids[j]
    requires forall i :: 0 <= i < |ids| ==> ids[i] !in reg.db.orders
    modifies reg, reg.db
    ensures reg.Valid() && Linked(reg.db.couriers, reg.db.orders)
    ensures |results| == |inputs|
    ensures NoSharedCourier(reg.db.orders)
  {
    results := [];
    var i := 0;
    while i < |inputs|
      invariant 0 <= i <= |inputs| && |results| == i
      invariant reg.Valid() && Linked(reg.db.couriers, reg.db.orders)
      invariant forall j :: i <= j < |ids| ==> ids[j] !in reg.db.orders
    {
      var r := CreateOrder(reg, inputs[i], ids[i], now);
      results := results + [r];
      i := i + 1;
    }
    LinkedNoSharedCourier(reg.db.couriers, reg.db.orders);
  }

  /**
   * A valid Normal order placed while some courier is available and no
   * reservation is in flight is ASSIGNED to a courier.
   */
  method NormalOrderIsAssigned(reg: Registry, input: OrderInput, orderId: string, now: int, k: nat)
    returns (r: Result<Created, CreateError>)
    requires reg.Valid() && orderId !in reg.db.orders && reg.assignmentLock == {}
    requires CheckOrderInput(input) == Pass && input.deliveryType == Str(NORMAL)
    requires k < |reg.db.courierIds| && reg.db.couriers[reg.db.courierIds[k]].isAvailable
    modifies reg, reg.db
    ensures r.Ok? && r.value.order.state == ASSIGNED && r.value.order.courierId.Some?
  {
    NormalIgnoresDistance(reg.db.AllCouriers(), LocationPoint(input.pickupLocation), k);
    r := CreateOrder(reg, input, orderId, now);
  }

  /**
   * An Express order whose pickup is beyond the limit from every courier is
   * stored CREATED, with no courier, and no courier changes.
   */
  method DistantExpressOrderIsUnassigned(reg: Registry, input: OrderInput, orderId: string, now: int)
    returns (r: Result<Created, CreateError>)
    requires reg.Valid() && orderId !in reg.db.orders
    requires CheckOrderInput(input) == Pass && input.deliveryType == Str(EXPRESS)
    requires forall c :: c in reg.db.couriers ==>
      CalculateDistance(reg.db.couriers[c].location, LocationPoint(input.pickupLocation)) > EXPRESS_MAX_DISTANCE
    modifies reg, reg.db
    ensures r.Ok? && r.value.assignment == NoCourierAvailable
    ensures r.value.order.state == CREATED && r.value.order.courierId == None
    ensures reg.db.couriers == old(reg.db.couriers)
  {
    var cs := reg.db.AllCouriers();
    forall j | 0 <= j < |cs|
      ensures CalculateDistance(cs[j].location, LocationPoint(input.pickupLocation)) > EXPRESS_MAX_DISTANCE
    {
      assert cs[j] == reg.db.couriers[reg.db.courierIds[j]];
    }
    ExpressOutOfRange(cs, LocationPoint(input.pickupLocation));
    r := CreateOrder(reg, input, orderId, now);
  }
}
