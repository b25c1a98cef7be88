/** An order: its stored record and the `Order` class (src/models/Order.js). */
module OrderModel {
  import opened Wrappers
  import opened JsValues
  import opened Distance
  import opened Validators

  /** The fields of an order as the order store holds them; timestamps are integers. */
  datatype OrderRecord = OrderRecord(
    id: string,
    pickupLocation: Point,
    dropLocation: Point,
    deliveryType: string,
    packageDetails: JsValue,
    vehicleDetails: JsValue,
    state: string,
    courierId: Option<string>,
    createdAt: int,
    updatedAt: int)

  /**
   * The argument of `new Order({...})`. A `None`, or `Undefined` for the
   * details, stands for a property left out, which takes its default.
   * A `courierId` of null and one left out both give null.
   */
  datatype OrderInit = OrderInit(
    id: string,
    pickupLocation: Option<Point>,
    dropLocation: Option<Point>,
    deliveryType: Option<string>,
    packageDetails: JsValue,
    vehicleDetails: JsValue,
    state: Option<string>,
    courierId: Option<string>,
    createdAt: Option<int>,
    updatedAt: Option<int>)

  /** A destructuring default: it applies only to undefined. */
  function Defaulted(v: JsValue, default: JsValue): (r: JsValue)
    ensures v != Undefined ==> r == v
    ensures v == Undefined ==> r == default
  {
    if v == Undefined then default else v
  }

  /** The order the constructor builds; `now` is the clock reading behind `new Date()`. */
  function Construct(init: OrderInit, now: int): (r: OrderRecord)
    ensures r.id == init.id && r.courierId == init.courierId
    ensures init.pickupLocation.Some? ==> r.pickupLocation == init.pickupLocation.value
    ensures init.dropLocation.Some? ==> r.dropLocation == init.dropLocation.value
    ensures init.packageDetails != Undefined ==> r.packageDetails == init.packageDetails
    ensures init.vehicleDetails != Undefined ==> r.vehicleDetails == init.vehicleDetails
  {
    OrderRecord(
      init.id,
      init.pickupLocation.GetOr(Point(0, 0)),
      init.dropLocation.GetOr(Point(0, 0)),
      init.deliveryType.GetOr(NORMAL),
      Defaulted(init.packageDetails, Str("")),
      Defaulted(init.vehicleDetails, Str("")),
      init.state.GetOr(CREATED),
      init.courierId,
      init.createdAt.GetOr(now),
      init.updatedAt.GetOr(now))
  }

  /** An order given only its id is a fresh, unassigned, Normal order. */
  lemma DefaultOrder(id: string, now: int)
    ensures var r := Construct(OrderInit(id, None, None, None, Undefined, Undefined, None, None, None, None), now);
      r.state == CREATED && r.courierId == None && r.deliveryType == NORMAL &&
      r.pickupLocation == Point(0, 0) && r.dropLocation == Point(0, 0) &&
      r.packageDetails == Str("") && r.vehicleDetails == Str("") &&
      r.createdAt == now && r.updatedAt == now
  {
  }

  /** The record after `updateState(newState)` succeeded at time `now`. */
  function WithState(o: OrderRecord, newState: string, now: int): (r: OrderRecord)
    ensures r.state == newState && r.updatedAt == now
    ensures r.(state := o.state, updatedAt := o.updatedAt) == o
  {
    o.(state := newState, updatedAt := now)
  }

  datatype StateError = InvalidState(state: string)

  class Order {
    var id: string
    var pickupLocation: Point
    var dropLocation: Point
    var deliveryType: string
    var packageDetails: JsValue
    var vehicleDetails: JsValue
    var state: string
    var courierId: Option<string>
    var createdAt: int
    var updatedAt: int

    function Record(): OrderRecord
      reads this
    {
      OrderRecord(id, pickupLocation, dropLocation, deliveryType, packageDetails, vehicleDetails,
                  state, courierId, createdAt, updatedAt)
    }

    /** `new Order({...})` */
    constructor (init: OrderInit, now: int)
      ensures Record() == Construct(init, now)
    {
      var r := Construct(init, now);
      id := r.id;
      pickupLocation := r.pickupLocation;
      dropLocation := r.dropLocation;
      deliveryType := r.deliveryType;
      packageDetails := r.packageDetails;
      vehicleDetails := r.vehicleDetails;
      state := r.state;
      courierId := r.courierId;
      createdAt := r.createdAt;
      updatedAt := r.updatedAt;
    }

    /**
     * `updateState(newState)`: refuses a name outside the six states and
     * otherwise sets it, without consulting the transition table.
     */
    method UpdateState(newState: string, now: int) returns (r: Outcome<StateError>)
      modifies this
      ensures r == Pass <==> IsOrderState(newState)
      ensures r == Pass ==> Record() == WithState(old(Record()), newState, now)
      ensures r != Pass ==> r == Fail(InvalidState(newState)) && Record() == old(Record())
    {
      if newState !in ORDER_STATES {
        return Fail(InvalidState(newState));
      }
      state := newState;
      updatedAt := now;
      r := Pass;
    }
  }
}
