/**
 * The two in-memory keyed stores and their seeding (src/utils/database.js).
 * A JavaScript `Map` is a map together with the order in which its keys
 * were first inserted, which is the order its `values()` iterate in.
 */
module Database {
  import opened Wrappers
  import opened JsValues
  import opened Distance
  import opened Validators
  import opened CourierModel
  import opened OrderModel

  /** `r` is `s` with some elements left out, the rest in their order. */
  predicate Subsequence<T(==)>(r: seq<T>, s: seq<T>)
    decreases |s|
  {
    if r == [] then true
    else if s == [] then false
    else if r[0] == s[0] then Subsequence(r[1..], s[1..])
    else Subsequence(r, s[1..])
  }

  /** `keys` lists the keys of `m`, each once, in insertion order. */
  ghost predicate InsertionOrdered<V>(m: map<string, V>, keys: seq<string>) {
    (forall k :: k in m <==> k in keys) &&
    (forall i, j :: 0 <= i < j < |keys| ==> keys[i] != keys[j])
  }

  /** The key order after `m.set(k, v)`: a new key goes last, an existing key keeps its place. */
  function KeysAfterSet(keys: seq<string>, k: string): (r: seq<string>)
    ensures k in keys ==> r == keys
    ensures k !in keys ==> r == keys + [k]
  {
    if k in keys then keys else keys + [k]
  }

  lemma SetKeepsOrder<V>(m: map<string, V>, keys: seq<string>, k: string, v: V)
    requires InsertionOrdered(m, keys)
    ensures InsertionOrdered(m[k := v], KeysAfterSet(keys, k))
  {
  }

  /** `Array.from(m.values())` */
  function Values<V>(m: map<string, V>, keys: seq<string>): (r: seq<V>)
    requires forall k :: k in keys ==> k in m
    ensures |r| == |keys|
    ensures forall i :: 0 <= i < |keys| ==> r[i] == m[keys[i]]
  {
    seq(|keys|, i requires 0 <= i < |keys| => m[keys[i]])
  }

  /** Lists every stored value, in insertion order. */
  lemma ValuesComplete<V>(m: map<string, V>, keys: seq<string>)
    requires InsertionOrdered(m, keys)
    ensures forall k :: k in m ==> m[k] in Values(m, keys)
  {
    forall k | k in m
      ensures m[k] in Values(m, keys)
    {
      var i :| 0 <= i < |keys| && keys[i] == k;
      assert Values(m, keys)[i] == m[k];
    }
  }

  /** Every record is stored under its own id. */
  ghost predicate WellKeyed(couriers: map<string, CourierRecord>, orders: map<string, OrderRecord>) {
    (forall k :: k in couriers ==> couriers[k].id == k) &&
    (forall k :: k in orders ==> orders[k].id == k)
  }

  /** The lifecycle states in which an order holds its courier. */
  predicate IsActive(state: string) {
    state == ASSIGNED || state == PICKED_UP || state == IN_TRANSIT
  }

  /**
   * How couriers and orders refer to each other: a courier is available
   * exactly when it carries no order; an active order that names a courier
   * is that courier's current order; a courier's current order is active
   * and names it back; a CREATED order names no courier; and no courier has
   * the empty id (which the source would treat as "no courier").
   */
  ghost predicate Linked(couriers: map<string, CourierRecord>, orders: map<string, OrderRecord>) {
    "" !in couriers &&
    (forall c :: c in couriers ==> AvailabilityConsistent(couriers[c])) &&
    (forall o :: o in orders && IsActive(orders[o].state) && orders[o].courierId.Some? ==>
       orders[o].courierId.value in couriers &&
       couriers[orders[o].courierId.value].currentOrderId == Some(o)) &&
    (forall c :: c in couriers && couriers[c].currentOrderId.Some? ==>
       couriers[c].currentOrderId.value in orders &&
       IsActive(orders[couriers[c].currentOrderId.value].state) &&
       orders[couriers[c].currentOrderId.value].courierId == Some(c)) &&
    (forall o :: o in orders && orders[o].state == CREATED ==> orders[o].courierId.None?)
  }

  /** No two active orders share a courier. */
  lemma LinkedExclusive(couriers: map<string, CourierRecord>, orders: map<string, OrderRecord>, o1: string, o2: string)
    requires Linked(couriers, orders)
    requires o1 in orders && o2 in orders && o1 != o2
    requires IsActive(orders[o1].state) && IsActive(orders[o2].state)
    requires orders[o1].courierId.Some?
    ensures orders[o1].courierId != orders[o2].courierId
  {
  }

  /** A courier is unavailable exactly when some active order holds it. */
  lemma LinkedUnavailableIffHeld(couriers: map<string, CourierRecord>, orders: map<string, OrderRecord>, c: string)
    requires Linked(couriers, orders) && c in couriers
    ensures !couriers[c].isAvailable <==>
      exists o :: o in orders && IsActive(orders[o].state) && orders[o].courierId == Some(c)
  {
    if !couriers[c].isAvailable {
      var o := couriers[c].currentOrderId.value;
      assert o in orders && IsActive(orders[o].state) && orders[o].courierId == Some(c);
    }
  }

  /** `courier-${i}` */
  function CourierId(i: nat): string {
    "courier-" + NatToString(i)
  }

  /** `Courier-${i}` */
  function CourierName(i: nat): string {
    "Courier-" + NatToString(i)
  }

  lemma {:induction false} CourierIdInjective(a: nat, b: nat)
    requires CourierId(a) == CourierId(b)
    ensures a == b
  {
    assert NatToString(a) == CourierId(a)[8..] == CourierId(b)[8..] == NatToString(b);
    NatToStringInjective(a, b);
  }

  /** `Math.floor(u * 101)` for a draw `u` of `Math.random()`. */
  function SeedCoordinate(u: real): (c: int)
    requires 0.0 <= u < 1.0
    ensures 0 <= c <= 100
  {
    (u * 101.0).Floor
  }

  ghost predicate RandomDraws(random: seq<real>) {
    |random| == 20 && forall k :: 0 <= k < |random| ==> 0.0 <= random[k] < 1.0
  }

  /** The i-th seeded courier (1 <= i <= 10); it takes draws 2(i-1) and 2(i-1)+1 for x and y. */
  function SeedCourier(i: nat, random: seq<real>): (c: CourierRecord)
    requires 1 <= i <= 10 && RandomDraws(random)
    ensures c.id == CourierId(i) && c.isAvailable && c.currentOrderId == None
    ensures 0 <= c.location.x <= 100 && 0 <= c.location.y <= 100
  {
    CourierRecord(CourierId(i), CourierName(i),
      Point(SeedCoordinate(random[2 * (i - 1)]), SeedCoordinate(random[2 * (i - 1) + 1])),
      true, None)
  }

  /** The ids of the seeded couriers, in insertion order. */
  const SEED_IDS := ["courier-1", "courier-2", "courier-3", "courier-4", "courier-5",
                     "courier-6", "courier-7", "courier-8", "courier-9", "courier-10"]

  lemma SeedIdsSpelledOut(i: nat)
    requires 1 <= i <= 10
    ensures CourierId(i) == SEED_IDS[i - 1]
  {
    if i == 10 {
      assert NatToString(10) == NatToString(1) + [DigitChar(0)] == "10";
    }
  }

  /** The id the loop builds at step i is new, and it is the i-th seeded id. */
  lemma SeedIdIsNew(i: nat)
    requires 1 <= i <= 10
    ensures CourierId(i) == SEED_IDS[i - 1]
    ensures CourierId(i) !in SEED_IDS[..i - 1]
  {
    SeedIdsSpelledOut(i);
    forall k | 0 <= k < i - 1
      ensures SEED_IDS[k] != CourierId(i)
    {
      SeedIdsSpelledOut(k + 1);
      if SEED_IDS[k] == CourierId(i) {
        CourierIdInjective(k + 1, i);
      }
    }
  }

  /** The first n couriers are seeded: their ids in order, each with its seeded record. */
  ghost predicate SeededUpTo(couriers: map<string, CourierRecord>, ids: seq<string>, n: nat, random: seq<real>)
    requires RandomDraws(random)
  {
    n <= 10 && ids == SEED_IDS[..n] &&
    forall k :: 0 <= k < n ==> ids[k] in couriers && couriers[ids[k]] == SeedCourier(k + 1, random)
  }

  /** One turn of the seeding loop adds a new key and keeps the earlier couriers. */
  lemma SeedStep(couriers: map<string, CourierRecord>, ids: seq<string>, i: nat, random: seq<real>)
    requires 1 <= i <= 10 && RandomDraws(random) && SeededUpTo(couriers, ids, i - 1, random)
    ensures SeedCourier(i, random).id !in ids
    ensures SeededUpTo(couriers[SeedCourier(i, random).id := SeedCourier(i, random)],
                       ids + [SeedCourier(i, random).id], i, random)
  {
    var c := SeedCourier(i, random);
    SeedIdIsNew(i);
    var couriers', ids' := couriers[c.id := c], ids + [c.id];
    assert ids' == SEED_IDS[..i];
    forall k | 0 <= k < i
      ensures ids'[k] in couriers' && couriers'[ids'[k]] == SeedCourier(k + 1, random)
    {
      if k < i - 1 {
        assert ids'[k] == ids[k] && ids[k] in ids;
      }
    }
  }

  /** Moving a courier keeps couriers and orders linked. */
  lemma MoveKeepsLinked(couriers: map<string, CourierRecord>, orders: map<string, OrderRecord>, c: string, to: Point)
    requires Linked(couriers, orders) && c in couriers
    ensures Linked(couriers[c := couriers[c].(location := to)], orders)
  {
    var couriers' := couriers[c := couriers[c].(location := to)];
    assert forall x :: x in couriers ==> couriers'[x].currentOrderId == couriers[x].currentOrderId;
  }

  /** Freshly seeded couriers and an empty order store are linked. */
  lemma SeededLinked(couriers: map<string, CourierRecord>, ids: seq<string>, random: seq<real>)
    requires RandomDraws(random) && InsertionOrdered(couriers, ids) && ids == SEED_IDS
    requires forall k :: 0 <= k < 10 ==> couriers[ids[k]] == SeedCourier(k + 1, random)
    ensures Linked(couriers, map[])
  {
    assert "" !in ids;
    forall c | c in couriers
      ensures couriers[c].isAvailable && couriers[c].currentOrderId == None
    {
      var k :| 0 <= k < |ids| && ids[k] == c;
    }
  }

  class Store {
    var couriers: map<string, CourierRecord>
    var courierIds: seq<string>
    var orders: map<string, OrderRecord>
    var orderIds: seq<string>

    ghost predicate Valid()
      reads this
    {
      InsertionOrdered(couriers, courierIds) &&
      InsertionOrdered(orders, orderIds) &&
      WellKeyed(couriers, orders)
    }

    constructor ()
      ensures Valid()
      ensures couriers == map[] && courierIds == [] && orders == map[] && orderIds == []
    {
      couriers, courierIds := map[], [];
      orders, orderIds := map[], [];
    }

    /** `Array.from(couriers.values())` */
    function AllCouriers(): seq<CourierRecord>
      reads this
      requires Valid()
    {
      Values(couriers, courierIds)
    }

    /** `Array.from(orders.values())` */
    function AllOrders(): seq<OrderRecord>
      reads this
      requires Valid()
    {
      Values(orders, orderIds)
    }

    /** `couriers.set(c.id, c)` */
    method SetCourier(c: CourierRecord)
      requires Valid()
      modifies this
      ensures Valid()
      ensures couriers == old(couriers)[c.id := c] && courierIds == KeysAfterSet(old(courierIds), c.id)
      ensures orders == old(orders) && orderIds == old(orderIds)
    {
      SetKeepsOrder(couriers, courierIds, c.id, c);
      couriers, courierIds := couriers[c.id := c], KeysAfterSet(courierIds, c.id);
    }

    /** `orders.set(o.id, o)` */
    method SetOrder(o: OrderRecord)
      requires Valid()
      modifies this
      ensures Valid()
      ensures orders == old(orders)[o.id := o] && orderIds == KeysAfterSet(old(orderIds), o.id)
      ensures couriers == old(couriers) && courierIds == old(courierIds)
    {
      SetKeepsOrder(orders, orderIds, o.id, o);
      orders, orderIds := orders[o.id := o], KeysAfterSet(orderIds, o.id);
    }

    /**
     * `initializeDatabase()`: empties both stores and seeds the couriers
     * courier-1 to courier-10 in that order; `random` holds the twenty
     * draws of `Math.random()` the seeding makes.
     */
    method InitializeDatabase(random: seq<real>)
      requires RandomDraws(random)
      modifies this
      ensures Valid()
      ensures orders == map[] && orderIds == []
      ensures courierIds == SEED_IDS
      ensures forall k :: 0 <= k < 10 ==> couriers[courierIds[k]] == SeedCourier(k + 1, random)
      ensures Linked(couriers, orders)
    {
      couriers, courierIds := map[], [];
      orders, orderIds := map[], [];
      var i := 1;
      while i <= 10
        invariant 1 <= i <= 11
        invariant Valid() && orders == map[] && orderIds == []
        invariant SeededUpTo(couriers, courierIds, i - 1, random)
      {
        var c := SeedCourier(i, random);
        SeedStep(couriers, courierIds, i, random);
        SetCourier(c);
        i := i + 1;
      }
      assert courierIds == SEED_IDS[..10] == SEED_IDS;
      SeededLinked(couriers, courierIds, random);
    }
  }
}
