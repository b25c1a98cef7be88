/**
 * Delivery simulation (src/services/simulationService.js): a bounded step
 * toward a target, one tick of delivery progress per order, and the
 * bookkeeping of the running simulations. A timer firing is an explicit
 * `Tick` call; the interval and its clearing are not modelled.
 */
module SimulationService {
  import opened Wrappers
  import opened Distance
  import opened Validators
  import opened CourierModel
  import opened OrderModel
  import opened Database
  import opened CourierService
  import opened OrderService

  /** `Math.sign` on integers. */
  function Sign(n: int): (r: int)
    ensures n > 0 ==> r == 1
    ensures n == 0 ==> r == 0
    ensures n < 0 ==> r == -1
  {
    if n > 0 then 1 else if n < 0 then -1 else 0
  }

  function Min(a: int, b: int): (r: int)
    ensures r <= a && r <= b && (r == a || r == b)
  {
    if a <= b then a else b
  }

  /** `b` lies on the segment between `a` and `c`. */
  predicate Between(a: int, b: int, c: int) {
    a <= b <= c || c <= b <= a
  }

  /**
   * `_moveTowards(current, target, maxStep)`: up to `ceil(maxStep / 2)` units
   * along x and `floor(maxStep / 2)` along y, never past the target.
   */
  function MoveTowards(current: Point, target: Point, maxStep: nat): (p: Point)
    ensures Abs(p.x - current.x) <= (maxStep + 1) / 2 && Abs(p.y - current.y) <= maxStep / 2
    ensures Between(current.x, p.x, target.x) && Between(current.y, p.y, target.y)
    ensures Abs(p.x - current.x) == Min(Abs(target.x - current.x), (maxStep + 1) / 2)
    ensures Abs(p.y - current.y) == Min(Abs(target.y - current.y), maxStep / 2)
  {
    var dx := target.x - current.x;
    var dy := target.y - current.y;
    var stepX := Sign(dx) * Min(Abs(dx), (maxStep + 1) / 2);
    var stepY := Sign(dy) * Min(Abs(dy), maxStep / 2);
    Point(current.x + stepX, current.y + stepY)
  }

  /** The remaining distance shrinks by exactly the length of the step taken. */
  lemma MoveShortensByStep(current: Point, target: Point, maxStep: nat)
    ensures var p := MoveTowards(current, target, maxStep);
      CalculateDistance(p, target) ==
        CalculateDistance(current, target) - CalculateDistance(current, p)
  {
  }

  /** A step never takes the courier further from the target. */
  lemma MoveNeverFurther(current: Point, target: Point, maxStep: nat)
    ensures CalculateDistance(MoveTowards(current, target, maxStep), target) <= CalculateDistance(current, target)
  {
    MoveShortensByStep(current, target, maxStep);
  }

  /** With a step of at least 2, as in every tick, a courier not yet at the target gets strictly closer. */
  lemma MoveStrictlyCloser(current: Point, target: Point, maxStep: nat)
    requires maxStep >= 2 && current != target
    ensures CalculateDistance(MoveTowards(current, target, maxStep), target) < CalculateDistance(current, target)
  {
    MoveShortensByStep(current, target, maxStep);
    var p := MoveTowards(current, target, maxStep);
    assert p != current;
  }

  /** A step of 1 has no y component, so a courier straight above or below the target stays put. */
  lemma UnitStepStallsOnY()
    ensures MoveTowards(Point(0, 0), Point(0, 5), 1) == Point(0, 0)
  {
  }

  /** At the target, a step stays there. */
  lemma MoveAtTarget(target: Point, maxStep: nat)
    ensures MoveTowards(target, target, maxStep) == target
  {
  }

  /** The two stores between ticks. */
  datatype Stores = Stores(couriers: map<string, CourierRecord>, orders: map<string, OrderRecord>)

  /** The stores after `updateOrderState(orderId, newState)` accepts the transition. */
  function Transitioned(s: Stores, orderId: string, newState: string, now: int): (t: Stores)
    requires orderId in s.orders
    ensures t.orders == s.orders[orderId := WithState(s.orders[orderId], newState, now)]
    ensures t.couriers == ReleasedFor(s.couriers, s.orders[orderId], newState)
  {
    Stores(ReleasedFor(s.couriers, s.orders[orderId], newState), s.orders[orderId := WithState(s.orders[orderId], newState, now)])
  }

  /** The stores after `updateCourierLocation(courierId, location)`. */
  function Moved(s: Stores, courierId: string, location: Point): (t: Stores)
    requires courierId in s.couriers
    ensures t.orders == s.orders
    ensures t.couriers == s.couriers[courierId := s.couriers[courierId].(location := location)]
  {
    Stores(s.couriers[courierId := s.couriers[courierId].(location := location)], s.orders)
  }

  /** Distance at or below which a courier counts as arrived. */
  const ARRIVAL_DISTANCE := 1
  /** The step every tick takes. */
  const TICK_STEP := 2

  /** The order and courier `simulateDelivery` reads: the courier it names, when that id is truthy and stored. */
  predicate HasCourier(s: Stores, orderId: string)
    requires orderId in s.orders
  {
    HoldsCourier(s.orders[orderId].courierId) && s.orders[orderId].courierId.value in s.couriers
  }

  /**
   * One tick of `simulateDelivery(orderId)` on the stores: an ASSIGNED
   * courier steps toward the pickup and the order becomes PICKED_UP on
   * arrival; a PICKED_UP order becomes IN_TRANSIT; an IN_TRANSIT courier
   * steps toward the drop and the order becomes DELIVERED on arrival.
   */
  function Advance(s: Stores, orderId: string, now: int): (t: Stores)
    requires orderId in s.orders
    ensures t.couriers.Keys == s.couriers.Keys && t.orders.Keys == s.orders.Keys
    ensures t.orders[orderId].courierId == s.orders[orderId].courierId
  {
    if !HasCourier(s, orderId) then s
    else
      var o := s.orders[orderId];
      var c := o.courierId.value;
      if o.state == ASSIGNED then
        var location := MoveTowards(s.couriers[c].location, o.pickupLocation, TICK_STEP);
        var m := Moved(s, c, location);
        if CalculateDistance(location, o.pickupLocation) <= ARRIVAL_DISTANCE then Transitioned(m, orderId, PICKED_UP, now) else m
      else if o.state == PICKED_UP then
        Transitioned(s, orderId, IN_TRANSIT, now)
      else if o.state == IN_TRANSIT then
        var location := MoveTowards(s.couriers[c].location, o.dropLocation, TICK_STEP);
        var m := Moved(s, c, location);
        if CalculateDistance(location, o.dropLocation) <= ARRIVAL_DISTANCE then Transitioned(m, orderId, DELIVERED, now) else m
      else
        s
  }

  /** Without a stored courier there is nothing to simulate. */
  lemma AdvanceWithoutCourier(s: Stores, orderId: string, now: int)
    requires orderId in s.orders && !HasCourier(s, orderId)
    ensures Advance(s, orderId, now) == s
  {
  }

  /** A tick on a CREATED, DELIVERED or CANCELLED order changes nothing. */
  lemma AdvanceIdle(s: Stores, orderId: string, now: int)
    requires orderId in s.orders && !IsActive(s.orders[orderId].state)
    ensures Advance(s, orderId, now) == s
  {
  }

  /** Only the ticked order and its courier change. */
  lemma AdvanceTouchesOnly(s: Stores, orderId: string, now: int)
    requires orderId in s.orders
    ensures var t := Advance(s, orderId, now);
      (forall o :: o in s.orders && o != orderId ==> t.orders[o] == s.orders[o]) &&
      (forall c :: c in s.couriers && Some(c) != s.orders[orderId].courierId ==> t.couriers[c] == s.couriers[c])
  {
    if HasCourier(s, orderId) {
      var o := s.orders[orderId];
      var c := o.courierId.value;
      if o.state == ASSIGNED || o.state == IN_TRANSIT {
        var target := if o.state == ASSIGNED then o.pickupLocation else o.dropLocation;
        var next := if o.state == ASSIGNED then PICKED_UP else DELIVERED;
        var m := Moved(s, c, MoveTowards(s.couriers[c].location, target, TICK_STEP));
        assert Advance(s, orderId, now) == m || Advance(s, orderId, now) == Transitioned(m, orderId, next, now);
      }
    }
  }

  /** ASSIGNED: the courier steps toward the pickup, and the order is PICKED_UP exactly when it has arrived. */
  lemma AdvanceAssigned(s: Stores, orderId: string, now: int)
    requires orderId in s.orders && HasCourier(s, orderId) && s.orders[orderId].state == ASSIGNED
    ensures var o := s.orders[orderId];
      var c := o.courierId.value;
      var t := Advance(s, orderId, now);
      var location := MoveTowards(s.couriers[c].location, o.pickupLocation, TICK_STEP);
      t.couriers[c] == s.couriers[c].(location := location) &&
      (t.orders[orderId].state == PICKED_UP <==> CalculateDistance(location, o.pickupLocation) <= 1) &&
      (t.orders[orderId].state == ASSIGNED <==> CalculateDistance(location, o.pickupLocation) > 1) &&
      t.orders[orderId].courierId == o.courierId
  {
  }

  /** PICKED_UP: the order moves on to IN_TRANSIT and no courier moves. */
  lemma AdvancePickedUp(s: Stores, orderId: string, now: int)
    requires orderId in s.orders && HasCourier(s, orderId) && s.orders[orderId].state == PICKED_UP
    ensures Advance(s, orderId, now).couriers == s.couriers
    ensures Advance(s, orderId, now).orders == s.orders[orderId := WithState(s.orders[orderId], IN_TRANSIT, now)]
  {
  }

  /**
   * IN_TRANSIT: the courier steps toward the drop; on arrival the order is
   * DELIVERED and the courier is free again, otherwise it stays IN_TRANSIT
   * with the courier still held.
   */
  lemma AdvanceInTransit(s: Stores, orderId: string, now: int)
    requires orderId in s.orders && HasCourier(s, orderId) && s.orders[orderId].state == IN_TRANSIT
    ensures var o := s.orders[orderId];
      var c := o.courierId.value;
      var t := Advance(s, orderId, now);
      var location := MoveTowards(s.couriers[c].location, o.dropLocation, TICK_STEP);
      t.couriers[c].location == location &&
      (CalculateDistance(location, o.dropLocation) <= 1 ==>
        t.orders[orderId].state == DELIVERED &&
        t.couriers[c] == MarkedAvailable(s.couriers[c]).(location := location)) &&
      (CalculateDistance(location, o.dropLocation) > 1 ==>
        t.orders[orderId] == o &&
        t.couriers[c] == s.couriers[c].(location := location))
  {
  }

  /**
   * Every tick of an order that holds a stored courier makes progress: the
   * order advances, or the courier is strictly closer to where it is going.
   */
  lemma AdvanceProgresses(s: Stores, orderId: string, now: int)
    requires orderId in s.orders && HasCourier(s, orderId) && IsActive(s.orders[orderId].state)
    ensures var o := s.orders[orderId];
      var c := o.courierId.value;
      var t := Advance(s, orderId, now);
      var target := if o.state == ASSIGNED then o.pickupLocation else o.dropLocation;
      t.orders[orderId].state != o.state ||
      CalculateDistance(t.couriers[c].location, target) < CalculateDistance(s.couriers[c].location, target)
  {
    var o := s.orders[orderId];
    var c := o.courierId.value;
    if o.state == ASSIGNED {
      AdvanceAssigned(s, orderId, now);
      if s.couriers[c].location == o.pickupLocation {
        MoveAtTarget(o.pickupLocation, TICK_STEP);
      } else {
        MoveStrictlyCloser(s.couriers[c].location, o.pickupLocation, TICK_STEP);
      }
    } else if o.state == IN_TRANSIT {
      AdvanceInTransit(s, orderId, now);
      if s.couriers[c].location == o.dropLocation {
        MoveAtTarget(o.dropLocation, TICK_STEP);
      } else {
        MoveStrictlyCloser(s.couriers[c].location, o.dropLocation, TICK_STEP);
      }
    }
  }

  /** A tick keeps couriers and orders linked. */
  lemma {:induction false} AdvanceKeepsLinked(s: Stores, orderId: string, now: int)
    requires orderId in s.orders && Linked(s.couriers, s.orders)
    ensures Linked(Advance(s, orderId, now).couriers, Advance(s, orderId, now).orders)
  {
    if HasCourier(s, orderId) {
      var o := s.orders[orderId];
      var c := o.courierId.value;
      if o.state == ASSIGNED || o.state == IN_TRANSIT {
        var target := if o.state == ASSIGNED then o.pickupLocation else o.dropLocation;
        var location := MoveTowards(s.couriers[c].location, target, TICK_STEP);
        var m := Moved(s, c, location);
        MoveKeepsLinked(s.couriers, s.orders, c, location);
        var next := if o.state == ASSIGNED then PICKED_UP else DELIVERED;
        assert ValidateStateTransition(m.orders[orderId].state, next) == TransitionOk;
        TransitionKeepsLinked(m.couriers, m.orders, orderId, next, now);
      } else if o.state == PICKED_UP {
        assert ValidateStateTransition(o.state, IN_TRANSIT) == TransitionOk;
        TransitionKeepsLinked(s.couriers, s.orders, orderId, IN_TRANSIT, now);
      }
    }
  }

  /** `{order, courier}` as `simulateDelivery` returns them. */
  datatype Snapshot = Snapshot(order: OrderRecord, courier: Option<CourierRecord>)

  /**
   * The moving half of a tick: the order's courier steps toward `target`
   * and, once within the arrival distance, the order moves on to `next`.
   */
  method StepToward(reg: Registry, orderId: string, target: Point, next: string, now: int)
    requires reg.Valid() && orderId in reg.db.orders && HasCourier(Stores(reg.db.couriers, reg.db.orders), orderId)
    requires ValidateStateTransition(reg.db.orders[orderId].state, next) == TransitionOk
    modifies reg.db
    ensures reg.Valid()
    ensures reg.db.orderIds == old(reg.db.orderIds) && reg.db.courierIds == old(reg.db.courierIds)
    ensures var s0 := old(Stores(reg.db.couriers, reg.db.orders));
      var c := s0.orders[orderId].courierId.value;
      var location := MoveTowards(s0.couriers[c].location, target, TICK_STEP);
      var m := Moved(s0, c, location);
      Stores(reg.db.couriers, reg.db.orders) ==
        if CalculateDistance(location, target) <= ARRIVAL_DISTANCE then Transitioned(m, orderId, next, now) else m
  {
    ghost var s0 := Stores(reg.db.couriers, reg.db.orders);
    var c := reg.db.orders[orderId].courierId.value;
    var location := MoveTowards(reg.db.couriers[c].location, target, TICK_STEP);
    var moved := reg.UpdateCourierLocation(c, location);
    assert Stores(reg.db.couriers, reg.db.orders) == Moved(s0, c, location);
    if CalculateDistance(location, target) <= ARRIVAL_DISTANCE {
      var updated := UpdateOrderState(reg, orderId, next, now);
    }
  }

  /**
   * `simulateDelivery(orderId)`: refuses an unknown order; otherwise applies
   * one tick and returns the order and its courier as they now are (no
   * courier when the order holds none).
   */
  method SimulateDelivery(reg: Registry, orderId: string, now: int) returns (r: Result<Snapshot, UpdateError>)
    requires reg.Valid()
    modifies reg.db
    ensures reg.Valid()
    ensures reg.db.orderIds == old(reg.db.orderIds) && reg.db.courierIds == old(reg.db.courierIds)
    ensures orderId !in old(reg.db.orders) ==>
      r == Err(OrderNotFound) && reg.db.orders == old(reg.db.orders) && reg.db.couriers == old(reg.db.couriers)
    ensures orderId in old(reg.db.orders) ==>
      r.Ok? &&
      Stores(reg.db.couriers, reg.db.orders) == Advance(old(Stores(reg.db.couriers, reg.db.orders)), orderId, now) &&
      r.value.order == reg.db.orders[orderId] &&
      (if old(HasCourier(Stores(reg.db.couriers, reg.db.orders), orderId))
       then r.value.courier == Some(reg.db.couriers[old(reg.db.orders[orderId].courierId.value)])
       else r.value.courier == None)
    ensures old(Linked(reg.db.couriers, reg.db.orders)) ==> Linked(reg.db.couriers, reg.db.orders)
  {
    if orderId !in reg.db.orders {
      return Err(OrderNotFound);
    }
    ghost var s0 := Stores(reg.db.couriers, reg.db.orders);
    if Linked(s0.couriers, s0.orders) {
      AdvanceKeepsLinked(s0, orderId, now);
    }
    var order := reg.db.orders[orderId];
    if !HoldsCourier(order.courierId) || order.courierId.value !in reg.db.couriers {
      return Ok(Snapshot(order, None));
    }
    var c := order.courierId.value;
    if order.state == ASSIGNED {
      StepToward(reg, orderId, order.pickupLocation, PICKED_UP, now);
    } else if order.state == PICKED_UP {
      var updated := UpdateOrderState(reg, orderId, IN_TRANSIT, now);
    } else if order.state == IN_TRANSIT {
      StepToward(reg, orderId, order.dropLocation, DELIVERED, now);
    }
    r := Ok(Snapshot(reg.db.orders[orderId], Some(reg.db.couriers[c])));
  }

  /** The first simulation, in insertion order, that drives `orderId`. */
  function SimulationFor(simulations: map<string, string>, ids: seq<string>, orderId: string): (r: Option<string>)
    requires forall k :: k in ids ==> k in simulations
    ensures r.Some? ==> r.value in ids && simulations[r.value] == orderId
    ensures r.None? <==> forall k :: k in ids ==> simulations[k] != orderId
  {
    if ids == [] then None
    else if simulations[ids[0]] == orderId then Some(ids[0])
    else SimulationFor(simulations, ids[1..], orderId)
  }

  /** The simulation found at index `i` is the first one for the order. */
  lemma {:induction false} SimulationForFirst(simulations: map<string, string>, ids: seq<string>, orderId: string, i: nat)
    requires forall k :: k in ids ==> k in simulations
    requires i < |ids| && simulations[ids[i]] == orderId
    requires forall j :: 0 <= j < i ==> simulations[ids[j]] != orderId
    ensures SimulationFor(simulations, ids, orderId) == Some(ids[i])
    decreases i
  {
    if i > 0 {
      SimulationForFirst(simulations, ids[1..], orderId, i - 1);
    }
  }

  /** No two simulations drive the same order. */
  ghost predicate OnePerOrder(simulations: map<string, string>) {
    forall a, b :: a in simulations && b in simulations && simulations[a] == simulations[b] ==> a == b
  }

  /** The simulations after `startAutoSimulation(orderId)` with the fresh id `simId`, when none drives the order. */
  function Registered(simulations: map<string, string>, simId: string, orderId: string): (r: map<string, string>)
    ensures r.Keys == simulations.Keys + {simId} && r[simId] == orderId
    ensures forall k :: k in simulations && k != simId ==> r[k] == simulations[k]
  {
    simulations[simId := orderId]
  }

  /** Registering a simulation for an order that has none keeps one simulation per order. */
  lemma RegisteredOnePerOrder(simulations: map<string, string>, simId: string, orderId: string)
    requires OnePerOrder(simulations)
    requires forall k :: k in simulations ==> simulations[k] != orderId
    ensures OnePerOrder(Registered(simulations, simId, orderId))
  {
  }

  /**
   * Once a simulation is registered for an order, starting one for it again
   * finds that simulation, whatever fresh id the second start would use.
   */
  lemma RegisteredIsFound(simulations: map<string, string>, ids: seq<string>, simId: string, orderId: string)
    requires InsertionOrdered(simulations, ids)
    requires SimulationFor(simulations, ids, orderId).None?
    ensures SimulationFor(Registered(simulations, simId, orderId), KeysAfterSet(ids, simId), orderId) == Some(simId)
  {
    var after := Registered(simulations, simId, orderId);
    var ids' := KeysAfterSet(ids, simId);
    SetKeepsOrder(simulations, ids, simId, orderId);
    assert simId in ids' && after[simId] == orderId;
    var r := SimulationFor(after, ids', orderId);
    assert r.Some?;
  }

  /** Keys of `ids` other than `k`, in their order: the key order after `m.delete(k)`. */
  function Without(ids: seq<string>, k: string): (r: seq<string>)
    ensures forall x :: x in r <==> x in ids && x != k
    ensures |r| <= |ids|
    ensures Subsequence(r, ids)
  {
    if ids == [] then []
    else if ids[0] == k then
      var rest := Without(ids[1..], k);
      assert rest != [] ==> rest[0] in rest;
      rest
    else
      var rest := Without(ids[1..], k);
      assert ([ids[0]] + rest)[1..] == rest;
      [ids[0]] + rest
  }

  /** Deleting a key keeps the key order of a map. */
  lemma {:induction false} WithoutKeepsOrder(m: map<string, string>, ids: seq<string>, k: string)
    requires InsertionOrdered(m, ids)
    ensures InsertionOrdered(m - {k}, Without(ids, k))
    decreases |ids|
  {
    if ids != [] {
      var rest := ids[1..];
      assert InsertionOrdered(m - {ids[0]}, rest) by {
        forall x
          ensures x in m - {ids[0]} <==> x in rest
        {
          if x in rest {
            var j :| 0 <= j < |rest| && rest[j] == x;
            assert ids[j + 1] == x;
          }
        }
      }
      WithoutKeepsOrder(m - {ids[0]}, rest, k);
      assert (m - {ids[0]}) - {k} == (m - {k}) - {ids[0]};
      if ids[0] != k {
        var r := [ids[0]] + Without(rest, k);
        forall i, j | 0 <= i < j < |r|
          ensures r[i] != r[j]
        {
          if i == 0 {
            assert r[j] in Without(rest, k);
          }
        }
      }
    }
  }

  /** A simulation of no order and its removal leave one simulation per order. */
  lemma RemovedOnePerOrder(simulations: map<string, string>, simId: string)
    requires OnePerOrder(simulations)
    ensures OnePerOrder(simulations - {simId})
  {
  }

  /** The running simulations: simulation id to the order it drives, in insertion order. */
  class Simulator {
    const reg: Registry
    var simulations: map<string, string>
    var simulationIds: seq<string>

    ghost predicate Valid()
      reads this, reg, reg.db
    {
      reg.Valid() && InsertionOrdered(simulations, simulationIds) && OnePerOrder(simulations)
    }

    constructor (reg: Registry)
      requires reg.Valid()
      ensures Valid() && this.reg == reg && simulations == map[] && simulationIds == []
    {
      this.reg := reg;
      simulations := map[];
      simulationIds := [];
    }

    /**
     * `startAutoSimulation(orderId)`: returns the simulation already driving
     * the order, or registers one under `freshId` (the `sim-<time>-<random>`
     * id) and returns that id.
     */
    method StartAutoSimulation(orderId: string, freshId: string) returns (simId: string)
      requires Valid()
      modifies this
      ensures Valid()
      ensures match SimulationFor(old(simulations), old(simulationIds), orderId)
        case Some(existing) =>
          simId == existing && simulations == old(simulations) && simulationIds == old(simulationIds)
        case None =>
          simId == freshId &&
          simulations == Registered(old(simulations), freshId, orderId) &&
          simulationIds == KeysAfterSet(old(simulationIds), freshId)
    {
      var i := 0;
      while i < |simulationIds|
        invariant i <= |simulationIds|
        invariant forall j :: 0 <= j < i ==> simulations[simulationIds[j]] != orderId
      {
        if simulations[simulationIds[i]] == orderId {
          SimulationForFirst(simulations, simulationIds, orderId, i);
          return simulationIds[i];
        }
        i := i + 1;
      }
      SetKeepsOrder(simulations, simulationIds, freshId, orderId);
      RegisteredOnePerOrder(simulations, freshId, orderId);
      simulations := Registered(simulations, freshId, orderId);
      simulationIds := KeysAfterSet(simulationIds, freshId);
      simId := freshId;
    }

    /** `stopSimulation(simId)`: false for an unknown id, otherwise removes it and returns true. */
    method StopSimulation(simId: string) returns (stopped: bool)
      requires Valid()
      modifies this
      ensures Valid()
      ensures stopped <==> simId in old(simulations)
      ensures simulations == old(simulations) - {simId}
      ensures simulationIds == Without(old(simulationIds), simId)
    {
      if simId !in simulations {
        assert simulations - {simId} == simulations;
        assert Without(simulationIds, simId) == simulationIds by {
          WithoutOfAbsent(simulationIds, simId);
        }
        return false;
      }
      WithoutKeepsOrder(simulations, simulationIds, simId);
      RemovedOnePerOrder(simulations, simId);
      simulations := simulations - {simId};
      simulationIds := Without(simulationIds, simId);
      stopped := true;
    }

    /**
     * One firing of the interval timer of simulation `simId` for `orderId`:
     * a tick, then the simulation stops when the tick failed or the order
     * has reached DELIVERED or CANCELLED.
     */
    method Tick(simId: string, orderId: string, now: int) returns (halted: bool)
      requires Valid()
      modifies this, reg.db
      ensures Valid()
      ensures orderId !in old(reg.db.orders) ==>
        halted && reg.db.orders == old(reg.db.orders) && reg.db.couriers == old(reg.db.couriers)
      ensures orderId in old(reg.db.orders) ==>
        Stores(reg.db.couriers, reg.db.orders) == Advance(old(Stores(reg.db.couriers, reg.db.orders)), orderId, now) &&
        (halted <==> IsTerminal(reg.db.orders[orderId].state))
      ensures halted ==> simulations == old(simulations) - {simId} && simulationIds == Without(old(simulationIds), simId)
      ensures !halted ==> simulations == old(simulations) && simulationIds == old(simulationIds)
      ensures old(Linked(reg.db.couriers, reg.db.orders)) ==> Linked(reg.db.couriers, reg.db.orders)
    {
      var result := SimulateDelivery(reg, orderId, now);
      halted := result.Err? || result.value.order.state == DELIVERED || result.value.order.state == CANCELLED;
      if halted {
        var stopped := StopSimulation(simId);
      }
    }
  }

  /** Removing an absent key leaves the key order as it was. */
  lemma {:induction false} WithoutOfAbsent(ids: seq<string>, k: string)
    requires k !in ids
    ensures Without(ids, k) == ids
    decreases |ids|
  {
    if ids != [] {
      assert k !in ids[1..];
      WithoutOfAbsent(ids[1..], k);
    }
  }
}
