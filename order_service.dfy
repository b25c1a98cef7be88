/**
 * The order lifecycle (src/services/orderService.js): order creation with a
 * single match-and-reserve attempt, validated state transitions that free the
 * courier at the end of the lifecycle, and read accessors over the order store.
 */
module OrderService {
  import opened Wrappers
  import opened JsValues
  import opened Distance
  import opened Validators
  import opened CourierModel
  import opened OrderModel
  import opened Database
  import opened CourierService

  /** The fields `createOrder` reads from its argument. */
  datatype OrderInput = OrderInput(
    pickupLocation: JsValue,
    dropLocation: JsValue,
    deliveryType: JsValue,
    packageDetails: JsValue,
    vehicleDetails: JsValue)

  /** The errors `createOrder` throws, in the order it checks for them. */
  datatype CreateError =
    | InvalidPickupLocation(reason: LocationError)
    | InvalidDropLocation(reason: LocationError)
    | InvalidDeliveryType
    | MissingDetails

  /** What the message of a created order reports about its courier. */
  datatype Assignment =
    | Assigned(courier: Candidate)
    | NoCourierAvailable
    | AssignmentFailed(reason: CourierError)

  /** `{order, courier?, message}` */
  datatype Created = Created(order: OrderRecord, assignment: Assignment)

  /** The validation steps of `createOrder`, stopping at the first failure. */
  function CheckOrderInput(input: OrderInput): (r: Outcome<CreateError>)
    ensures r == Pass <==>
      ValidateLocation(input.pickupLocation) == Pass && ValidateLocation(input.dropLocation) == Pass &&
      (input.deliveryType == Str(EXPRESS) || input.deliveryType == Str(NORMAL)) &&
      (Truthy(input.packageDetails) || Truthy(input.vehicleDetails))
    ensures ValidateLocation(input.pickupLocation).Fail? ==>
      r == Fail(InvalidPickupLocation(ValidateLocation(input.pickupLocation).error))
    ensures ValidateLocation(input.pickupLocation) == Pass && ValidateLocation(input.dropLocation).Fail? ==>
      r == Fail(InvalidDropLocation(ValidateLocation(input.dropLocation).error))
    ensures (ValidateLocation(input.pickupLocation) == Pass && ValidateLocation(input.dropLocation) == Pass &&
             ValidateDeliveryType(input.deliveryType).Fail?) ==> r == Fail(InvalidDeliveryType)
    ensures (ValidateLocation(input.pickupLocation) == Pass && ValidateLocation(input.dropLocation) == Pass &&
             ValidateDeliveryType(input.deliveryType) == Pass &&
             !Truthy(input.packageDetails) && !Truthy(input.vehicleDetails)) ==> r == Fail(MissingDetails)
  {
    var pickup := ValidateLocation(input.pickupLocation);
    var drop := ValidateLocation(input.dropLocation);
    if pickup.Fail? then Fail(InvalidPickupLocation(pickup.error))
    else if drop.Fail? then Fail(InvalidDropLocation(drop.error))
    else if ValidateDeliveryType(input.deliveryType).Fail? then Fail(InvalidDeliveryType)
    else if !Truthy(input.packageDetails) && !Truthy(input.vehicleDetails) then Fail(MissingDetails)
    else Pass
  }

  /** The order `createOrder` builds before matching: CREATED, with no courier. */
  function NewOrder(input: OrderInput, orderId: string, now: int): (o: OrderRecord)
    requires CheckOrderInput(input) == Pass
    ensures o.id == orderId && o.state == CREATED && o.courierId == None
    ensures o.pickupLocation == LocationPoint(input.pickupLocation) && o.dropLocation == LocationPoint(input.dropLocation)
    ensures Str(o.deliveryType) == input.deliveryType
    ensures Truthy(o.packageDetails) || Truthy(o.vehicleDetails)
    ensures o.packageDetails == OrElse(input.packageDetails, Str(""))
    ensures o.vehicleDetails == OrElse(input.vehicleDetails, Str(""))
    ensures o.createdAt == now && o.updatedAt == now
  {
    Construct(OrderInit(
      orderId,
      Some(LocationPoint(input.pickupLocation)),
      Some(LocationPoint(input.dropLocation)),
      Some(input.deliveryType.s),
      OrElse(input.packageDetails, Str("")),
      OrElse(input.vehicleDetails, Str("")),
      Some(CREATED),
      None,
      Some(now),
      Some(now)), now)
  }

  /** `order.courierId` used as a condition: null and '' are falsy. */
  predicate HoldsCourier(courierId: Option<string>) {
    courierId.Some? && courierId.value != ""
  }

  /** The courier store after the release step of a transition of `order` to `newState`. */
  function ReleasedFor(couriers: map<string, CourierRecord>, order: OrderRecord, newState: string): (r: map<string, CourierRecord>)
    ensures r.Keys == couriers.Keys
    ensures forall c :: c in couriers && (c != order.courierId.GetOr("") || !IsTerminal(newState)) ==> r[c] == couriers[c]
    ensures IsTerminal(newState) && HoldsCourier(order.courierId) && order.courierId.value in couriers ==>
      r[order.courierId.value] == MarkedAvailable(couriers[order.courierId.value])
    ensures !(IsTerminal(newState) && HoldsCourier(order.courierId)) ==> r == couriers
  {
    if IsTerminal(newState) && HoldsCourier(order.courierId) && order.courierId.value in couriers
    then couriers[order.courierId.value := MarkedAvailable(couriers[order.courierId.value])]
    else couriers
  }

  /** Storing an unassigned new order keeps couriers and orders linked. */
  lemma StoreUnassignedKeepsLinked(couriers: map<string, CourierRecord>, orders: map<string, OrderRecord>, o: OrderRecord)
    requires Linked(couriers, orders) && o.id !in orders
    requires o.state == CREATED && o.courierId == None
    ensures Linked(couriers, orders[o.id := o])
  {
  }

  /** Reserving an available courier for a new ASSIGNED order keeps couriers and orders linked. */
  lemma StoreAssignedKeepsLinked(couriers: map<string, CourierRecord>, orders: map<string, OrderRecord>, o: OrderRecord, c: string)
    requires Linked(couriers, orders) && o.id !in orders
    requires c in couriers && couriers[c].isAvailable
    requires o.state == ASSIGNED && o.courierId == Some(c)
    ensures Linked(couriers[c := MarkedUnavailable(couriers[c], o.id)], orders[o.id := o])
  {
    var couriers' := couriers[c := MarkedUnavailable(couriers[c], o.id)];
    var orders' := orders[o.id := o];
    forall x | x in orders' && IsActive(orders'[x].state) && orders'[x].courierId.Some?
      ensures orders'[x].courierId.value in couriers' && couriers'[orders'[x].courierId.value].currentOrderId == Some(x)
    {
    }
  }

  /** A validated transition, with its release step, keeps couriers and orders linked. */
  lemma TransitionKeepsLinked(couriers: map<string, CourierRecord>, orders: map<string, OrderRecord>,
                              id: string, newState: string, now: int)
    requires Linked(couriers, orders) && id in orders
    requires ValidateStateTransition(orders[id].state, newState) == TransitionOk
    ensures Linked(ReleasedFor(couriers, orders[id], newState), orders[id := WithState(orders[id], newState, now)])
  {
    var o := orders[id];
    var couriers' := ReleasedFor(couriers, o, newState);
    var orders' := orders[id := WithState(o, newState, now)];
    TransitionAcceptedExactly(o.state, newState);
    assert "" !in couriers';
    forall x | x in orders' && IsActive(orders'[x].state) && orders'[x].courierId.Some?
      ensures orders'[x].courierId.value in couriers' && couriers'[orders'[x].courierId.value].currentOrderId == Some(x)
    {
      var c := orders'[x].courierId.value;
    }
    forall c | c in couriers' && couriers'[c].currentOrderId.Some?
      ensures var x := couriers'[c].currentOrderId.value;
        x in orders' && IsActive(orders'[x].state) && orders'[x].courierId == Some(c)
    {
      var x := couriers[c].currentOrderId.value;
    }
  }

  /** The matched courier is the one stored under its id. */
  lemma CandidateIsStored(db: Store, cand: Candidate, pickup: Point, deliveryType: string)
    requires db.Valid()
    requires exists k :: IsNearest(db.AllCouriers(), pickup, deliveryType, k) && cand.courier == db.AllCouriers()[k]
    ensures cand.courier.id in db.couriers && db.couriers[cand.courier.id] == cand.courier
    ensures cand.courier.isAvailable
  {
    var k :| IsNearest(db.AllCouriers(), pickup, deliveryType, k) && cand.courier == db.AllCouriers()[k];
    assert db.AllCouriers()[k] == db.couriers[db.courierIds[k]];
  }

  /**
   * The single match-and-reserve attempt of `createOrder` on the snapshot
   * `cs` of the courier store: the nearest eligible courier, unless none
   * is eligible or that courier's reservation is still in flight. No other
   * courier is tried.
   */
  function PlannedAssignment(cs: seq<CourierRecord>, lock: set<string>, pickup: Point, deliveryType: string): (a: Assignment)
    ensures a == NoCourierAvailable <==> forall k :: 0 <= k < |cs| ==> !Eligible(cs[k], pickup, deliveryType)
    ensures a.Assigned? ==> a.courier.courier.id !in lock && exists k ::
      IsNearest(cs, pickup, deliveryType, k) && a.courier == Candidate(cs[k], CalculateDistance(cs[k].location, pickup))
    ensures a.AssignmentFailed? ==> a.reason == CurrentlyBeingAssigned && exists k ::
      IsNearest(cs, pickup, deliveryType, k) && cs[k].id in lock
    ensures forall k :: IsNearest(cs, pickup, deliveryType, k) ==>
      (cs[k].id in lock <==> a == AssignmentFailed(CurrentlyBeingAssigned)) &&
      (cs[k].id !in lock <==> a == Assigned(Candidate(cs[k], CalculateDistance(cs[k].location, pickup))))
  {
    NearestIsUnique(cs, pickup, deliveryType);
    match FindNearestAvailableCourier(cs, pickup, deliveryType)
    case None => NoCourierAvailable
    case Some(c) => if c.courier.id in lock then AssignmentFailed(CurrentlyBeingAssigned) else Assigned(c)
  }

  /** The stored order: ASSIGNED to the reserved courier, or left as built. */
  function Placed(order: OrderRecord, a: Assignment): (o: OrderRecord)
    ensures a.Assigned? ==> o.state == ASSIGNED && o.courierId == Some(a.courier.courier.id)
    ensures !a.Assigned? ==> o == order
    ensures o.(state := order.state, courierId := order.courierId) == order
  {
    if a.Assigned? then order.(state := ASSIGNED, courierId := Some(a.courier.courier.id)) else order
  }

  /** `orders.set(orderId, order)` for a new unassigned order. */
  method StoreUnassigned(reg: Registry, order: OrderRecord)
    requires reg.Valid() && order.id !in reg.db.orders
    requires order.state == CREATED && order.courierId == None
    modifies reg.db
    ensures reg.Valid()
    ensures reg.db.orders == old(reg.db.orders)[order.id := order] && reg.db.orderIds == old(reg.db.orderIds) + [order.id]
    ensures reg.db.couriers == old(reg.db.couriers) && reg.db.courierIds == old(reg.db.courierIds)
    ensures old(Linked(reg.db.couriers, reg.db.orders)) ==> Linked(reg.db.couriers, reg.db.orders)
  {
    if Linked(reg.db.couriers, reg.db.orders) {
      StoreUnassignedKeepsLinked(reg.db.couriers, reg.db.orders, order);
    }
    reg.db.SetOrder(order);
  }

  /**
   * `createOrder(orderData)`: validates the input, then stores a new order,
   * ASSIGNED to the nearest eligible courier when that courier can be
   * reserved and CREATED without a courier otherwise. `orderId` is the
   * fresh id `uuidv4()` returns and `now` the clock reading.
   */
  method CreateOrder(reg: Registry, input: OrderInput, orderId: string, now: int) returns (r: Result<Created, CreateError>)
    requires reg.Valid() && orderId !in reg.db.orders
    modifies reg, reg.db
    ensures reg.Valid()
    ensures r.Err? <==> CheckOrderInput(input).Fail?
    ensures r.Err? ==>
      CheckOrderInput(input) == Fail(r.error) &&
      reg.db.orders == old(reg.db.orders) && reg.db.orderIds == old(reg.db.orderIds) &&
      reg.db.couriers == old(reg.db.couriers) && reg.db.courierIds == old(reg.db.courierIds) &&
      reg.assignmentLock == old(reg.assignmentLock)
    ensures r.Ok? ==>
      CheckOrderInput(input) == Pass &&
      reg.db.orders == old(reg.db.orders)[orderId := r.value.order] &&
      reg.db.orderIds == old(reg.db.orderIds) + [orderId] &&
      reg.db.courierIds == old(reg.db.courierIds)
    ensures r.Ok? ==>
      var plan := PlannedAssignment(old(reg.db.AllCouriers()), old(reg.assignmentLock),
                                    LocationPoint(input.pickupLocation), input.deliveryType.s);
      r.value == Created(Placed(NewOrder(input, orderId, now), plan), plan) &&
      (plan.Assigned? ==>
        var c := plan.courier.courier.id;
        c in old(reg.db.couriers) &&
        reg.db.couriers == old(reg.db.couriers)[c := MarkedUnavailable(old(reg.db.couriers[c]), orderId)] &&
        reg.assignmentLock == old(reg.assignmentLock) + {c}) &&
      (!plan.Assigned? ==> reg.db.couriers == old(reg.db.couriers) && reg.assignmentLock == old(reg.assignmentLock))
    ensures old(Linked(reg.db.couriers, reg.db.orders)) ==> Linked(reg.db.couriers, reg.db.orders)
  {
    var check := CheckOrderInput(input);
    if check.Fail? {
      return Err(check.error);
    }
    var pickup := LocationPoint(input.pickupLocation);
    var order := NewOrder(input, orderId, now);
    var found := FindNearestAvailableCourier(reg.db.AllCouriers(), pickup, input.deliveryType.s);
    ghost var plan := PlannedAssignment(reg.db.AllCouriers(), reg.assignmentLock, pickup, input.deliveryType.s);
    if found.None? {
      assert plan == NoCourierAvailable;
      StoreUnassigned(reg, order);
      return Ok(Created(order, NoCourierAvailable));
    }
    var cand := found.value;
    CandidateIsStored(reg.db, cand, pickup, input.deliveryType.s);
    ghost var couriers0, orders0 := reg.db.couriers, reg.db.orders;
    ghost var locked := cand.courier.id in reg.assignmentLock;
    assert cand.courier.id in couriers0 && couriers0[cand.courier.id].isAvailable;
    assert locked ==> plan == AssignmentFailed(CurrentlyBeingAssigned);
    assert !locked ==> plan == Assigned(cand);
    var reservation := reg.AssignCourierToOrder(cand.courier.id, orderId);
    assert reservation.Err? ==> locked;
    if reservation.Err? {
      assert reservation.error == CurrentlyBeingAssigned;
      StoreUnassigned(reg, order);
      return Ok(Created(order, AssignmentFailed(reservation.error)));
    }
    assert plan == Assigned(cand);
    var withCourier := order.(state := ASSIGNED, courierId := Some(cand.courier.id), updatedAt := now);
    assert withCourier == Placed(order, Assigned(cand));
    if Linked(couriers0, orders0) {
      StoreAssignedKeepsLinked(couriers0, orders0, withCourier, cand.courier.id);
    }
    reg.db.SetOrder(withCourier);
    r := Ok(Created(withCourier, Assigned(cand)));
  }

  /** Why `updateOrderState` refused. */
  datatype UpdateError = OrderNotFound | TransitionRejected(check: TransitionCheck)

  /**
   * `updateOrderState(orderId, newState)`: applies a transition the table
   * allows, freeing the order's courier when the new state is DELIVERED or
   * CANCELLED; the order keeps its `courierId`. A courier that has vanished
   * does not stop the transition.
   */
  method UpdateOrderState(reg: Registry, orderId: string, newState: string, now: int) returns (r: Result<OrderRecord, UpdateError>)
    requires reg.Valid()
    modifies reg.db
    ensures reg.Valid()
    ensures reg.db.orderIds == old(reg.db.orderIds) && reg.db.courierIds == old(reg.db.courierIds)
    ensures orderId !in old(reg.db.orders) ==> r == Err(OrderNotFound)
    ensures orderId in old(reg.db.orders) ==>
      var check := ValidateStateTransition(old(reg.db.orders[orderId].state), newState);
      if check == TransitionOk then
        r == Ok(WithState(old(reg.db.orders[orderId]), newState, now)) &&
        reg.db.orders == old(reg.db.orders)[orderId := r.value] &&
        reg.db.couriers == ReleasedFor(old(reg.db.couriers), old(reg.db.orders[orderId]), newState)
      else
        r == Err(TransitionRejected(check))
    ensures r.Err? ==> reg.db.orders == old(reg.db.orders) && reg.db.couriers == old(reg.db.couriers)
    ensures old(Linked(reg.db.couriers, reg.db.orders)) ==> Linked(reg.db.couriers, reg.db.orders)
  {
    if orderId !in reg.db.orders {
      return Err(OrderNotFound);
    }
    var order := reg.db.orders[orderId];
    var check := ValidateStateTransition(order.state, newState);
    if check != TransitionOk {
      return Err(TransitionRejected(check));
    }
    if Linked(reg.db.couriers, reg.db.orders) {
      TransitionKeepsLinked(reg.db.couriers, reg.db.orders, orderId, newState, now);
    }
    if (newState == DELIVERED || newState == CANCELLED) && HoldsCourier(order.courierId) {
      var released := reg.ReleaseCourier(order.courierId.value);
    }
    var updated := WithState(order, newState, now);
    reg.db.SetOrder(updated);
    r := Ok(updated);
  }

  /** `getOrderById(orderId)` */
  function GetOrderById(db: Store, orderId: string): (r: Option<OrderRecord>)
    reads db
    requires db.Valid()
    ensures r.Some? <==> orderId in db.orders
    ensures r.Some? ==> r.value == db.orders[orderId] && r.value.id == orderId
  {
    if orderId in db.orders then Some(db.orders[orderId]) else None
  }

  /** `getAllOrders()`: every stored order, in insertion order. */
  function GetAllOrders(db: Store): (r: seq<OrderRecord>)
    reads db
    requires db.Valid()
    ensures |r| == |db.orderIds|
    ensures forall o :: o in r <==> o in db.orders.Values
  {
    ValuesComplete(db.orders, db.orderIds);
    db.AllOrders()
  }

  /** `orders.filter(o => o.courierId === courierId)` */
  function WithCourier(os: seq<OrderRecord>, courierId: string): (r: seq<OrderRecord>)
    ensures |r| <= |os|
    ensures forall o :: o in r <==> o in os && o.courierId == Some(courierId)
    ensures Subsequence(r, os)
  {
    if os == [] then []
    else if os[0].courierId == Some(courierId) then
      var rest := WithCourier(os[1..], courierId);
      assert ([os[0]] + rest)[1..] == rest;
      [os[0]] + rest
    else
      var rest := WithCourier(os[1..], courierId);
      assert rest != [] ==> rest[0] in rest;
      rest
  }

  /** `getOrdersByCourier(courierId)`: exactly the stored orders naming that courier. */
  function GetOrdersByCourier(db: Store, courierId: string): (r: seq<OrderRecord>)
    reads db
    requires db.Valid()
    ensures forall o :: o in r <==> o in db.orders.Values && o.courierId == Some(courierId)
  {
    WithCourier(GetAllOrders(db), courierId)
  }
}
