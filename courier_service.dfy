/**
 * The courier registry and the matching policy (src/services/courierService.js).
 * Matching is a pure function of a snapshot of the courier store; the
 * registry operations change the store and the set of couriers whose
 * reservation is in flight.
 */
module CourierService {
  import opened Wrappers
  import opened Distance
  import opened Validators
  import opened CourierModel
  import opened Database

  const EXPRESS_MAX_DISTANCE := 15

  /** `{...courier, distance}`: a courier with its distance to the pickup. */
  datatype Candidate = Candidate(courier: CourierRecord, distance: nat)

  /** `couriers.filter(c => c.isAvailable)` */
  function AvailableCouriers(cs: seq<CourierRecord>): (r: seq<CourierRecord>)
    ensures forall c :: c in r <==> c in cs && c.isAvailable
  {
    if cs == [] then []
    else if cs[0].isAvailable then [cs[0]] + AvailableCouriers(cs[1..])
    else AvailableCouriers(cs[1..])
  }

  /** `couriers.map(c => ({...c, distance: calculateDistance(c.location, pickup)}))` */
  function WithDistances(cs: seq<CourierRecord>, pickup: Point): (r: seq<Candidate>)
    ensures |r| == |cs|
    ensures forall k :: 0 <= k < |cs| ==> r[k] == Candidate(cs[k], CalculateDistance(cs[k].location, pickup))
  {
    if cs == [] then [] else [Candidate(cs[0], CalculateDistance(cs[0].location, pickup))] + WithDistances(cs[1..], pickup)
  }

  /** `candidates.filter(c => c.distance <= EXPRESS_MAX_DISTANCE)` */
  function WithinExpressRange(cands: seq<Candidate>): (r: seq<Candidate>)
    ensures forall c :: c in r <==> c in cands && c.distance <= EXPRESS_MAX_DISTANCE
  {
    if cands == [] then []
    else if cands[0].distance <= EXPRESS_MAX_DISTANCE then [cands[0]] + WithinExpressRange(cands[1..])
    else WithinExpressRange(cands[1..])
  }

  /** Distances never decrease along `cands`. */
  predicate SortedByDistance(cands: seq<Candidate>) {
    forall i, j :: 0 <= i < j < |cands| ==> cands[i].distance <= cands[j].distance
  }

  /** Places `x` before the first element at least as far; `x` came before all of `sorted`. */
  function Insert(x: Candidate, sorted: seq<Candidate>): (r: seq<Candidate>)
    ensures |r| == |sorted| + 1
    ensures r[0] == if sorted == [] || x.distance <= sorted[0].distance then x else sorted[0]
    ensures multiset(r) == multiset(sorted) + multiset{x}
  {
    if sorted == [] || x.distance <= sorted[0].distance then [x] + sorted
    else
      assert sorted == [sorted[0]] + sorted[1..];
      [sorted[0]] + Insert(x, sorted[1..])
  }

  /** Inserting into a sorted list keeps it sorted. */
  lemma {:induction false} InsertKeepsSorted(x: Candidate, sorted: seq<Candidate>)
    requires SortedByDistance(sorted)
    ensures SortedByDistance(Insert(x, sorted))
    decreases |sorted|
  {
    if sorted == [] || x.distance <= sorted[0].distance {
      SortedCons(x, sorted);
    } else {
      var tail := sorted[1..];
      assert SortedByDistance(tail);
      InsertKeepsSorted(x, tail);
      var rest := Insert(x, tail);
      assert tail != [] ==> sorted[0].distance <= tail[0].distance;
      SortedCons(sorted[0], rest);
    }
  }

  /** A head no farther than the first element of a sorted list keeps it sorted. */
  lemma SortedCons(h: Candidate, t: seq<Candidate>)
    requires SortedByDistance(t) && (t == [] || h.distance <= t[0].distance)
    ensures SortedByDistance([h] + t)
  {
    var s := [h] + t;
    forall i, j | 0 <= i < j < |s|
      ensures s[i].distance <= s[j].distance
    {
      if i > 0 {
        assert s[i] == t[i - 1] && s[j] == t[j - 1];
      } else {
        assert s[j] == t[j - 1];
      }
    }
  }

  /** `candidates.sort((a, b) => a.distance - b.distance)`: a stable sort by distance. */
  function SortByDistance(cands: seq<Candidate>): (r: seq<Candidate>)
    ensures |r| == |cands|
    ensures multiset(r) == multiset(cands)
    ensures SortedByDistance(r)
  {
    if cands == [] then []
    else
      assert cands == [cands[0]] + cands[1..];
      InsertKeepsSorted(cands[0], SortByDistance(cands[1..]));
      Insert(cands[0], SortByDistance(cands[1..]))
  }

  /** A courier the policy may pick: available, and within range for Express. */
  predicate Eligible(c: CourierRecord, pickup: Point, deliveryType: string) {
    c.isAvailable && (deliveryType == EXPRESS ==> CalculateDistance(c.location, pickup) <= EXPRESS_MAX_DISTANCE)
  }

  /**
   * `cs[k]` is the courier the policy should pick: eligible, no farther than
   * any eligible courier, and strictly nearer than every eligible courier
   * before it in iteration order.
   */
  ghost predicate IsNearest(cs: seq<CourierRecord>, pickup: Point, deliveryType: string, k: int) {
    0 <= k < |cs| && Eligible(cs[k], pickup, deliveryType) &&
    (forall j :: 0 <= j < |cs| && Eligible(cs[j], pickup, deliveryType) ==>
       CalculateDistance(cs[k].location, pickup) <= CalculateDistance(cs[j].location, pickup)) &&
    (forall j :: 0 <= j < k && Eligible(cs[j], pickup, deliveryType) ==>
       CalculateDistance(cs[k].location, pickup) < CalculateDistance(cs[j].location, pickup))
  }

  /** The eligible couriers with their distances, in iteration order. */
  ghost function EligibleCandidates(cs: seq<CourierRecord>, pickup: Point, deliveryType: string): (r: seq<Candidate>)
    ensures r == [] <==> forall k :: 0 <= k < |cs| ==> !Eligible(cs[k], pickup, deliveryType)
  {
    if cs == [] then []
    else if Eligible(cs[0], pickup, deliveryType)
    then [Candidate(cs[0], CalculateDistance(cs[0].location, pickup))] + EligibleCandidates(cs[1..], pickup, deliveryType)
    else
      assert forall k :: 1 <= k < |cs| ==> cs[k] == cs[1..][k - 1];
      EligibleCandidates(cs[1..], pickup, deliveryType)
  }

  /** The filter-map-filter pipeline of the source computes the eligible candidates. */
  lemma {:induction false} PipelineIsEligible(cs: seq<CourierRecord>, pickup: Point, deliveryType: string)
    ensures EligibleCandidates(cs, pickup, deliveryType) ==
      if deliveryType == EXPRESS then WithinExpressRange(WithDistances(AvailableCouriers(cs), pickup))
      else WithDistances(AvailableCouriers(cs), pickup)
  {
    if cs != [] {
      PipelineIsEligible(cs[1..], pickup, deliveryType);
    }
  }

  /** The nearest courier of the tail is the nearest of the whole when the head is not nearer. */
  lemma NearestShifts(cs: seq<CourierRecord>, pickup: Point, deliveryType: string, k': int)
    requires cs != [] && IsNearest(cs[1..], pickup, deliveryType, k')
    requires Eligible(cs[0], pickup, deliveryType) ==>
      CalculateDistance(cs[0].location, pickup) > CalculateDistance(cs[1..][k'].location, pickup)
    ensures IsNearest(cs, pickup, deliveryType, k' + 1)
  {
    var rest := cs[1..];
    assert forall j :: 1 <= j < |cs| ==> cs[j] == rest[j - 1];
    forall j | 0 <= j < |cs| && Eligible(cs[j], pickup, deliveryType)
      ensures CalculateDistance(cs[k' + 1].location, pickup) <= CalculateDistance(cs[j].location, pickup)
    {
      if j > 0 {
        assert Eligible(rest[j - 1], pickup, deliveryType);
      }
    }
    forall j | 0 <= j < k' + 1 && Eligible(cs[j], pickup, deliveryType)
      ensures CalculateDistance(cs[k' + 1].location, pickup) < CalculateDistance(cs[j].location, pickup)
    {
      if j > 0 {
        assert Eligible(rest[j - 1], pickup, deliveryType);
      }
    }
  }

  /** An eligible head no farther than the nearest of the tail is the nearest of the whole. */
  lemma NearestAtHead(cs: seq<CourierRecord>, pickup: Point, deliveryType: string)
    requires cs != [] && Eligible(cs[0], pickup, deliveryType)
    requires forall j :: 1 <= j < |cs| && Eligible(cs[j], pickup, deliveryType) ==>
      CalculateDistance(cs[0].location, pickup) <= CalculateDistance(cs[j].location, pickup)
    ensures IsNearest(cs, pickup, deliveryType, 0)
  {
  }

  /**
   * An eligible head is inserted into the sorted tail: it comes first exactly
   * when it is no farther than the tail's nearest courier.
   */
  lemma SortedHeadInserted(cs: seq<CourierRecord>, pickup: Point, deliveryType: string, k': int)
    requires cs != [] && Eligible(cs[0], pickup, deliveryType)
    requires IsNearest(cs[1..], pickup, deliveryType, k')
    requires SortByDistance(EligibleCandidates(cs[1..], pickup, deliveryType))[0] ==
      Candidate(cs[1..][k'], CalculateDistance(cs[1..][k'].location, pickup))
    ensures exists k ::
      IsNearest(cs, pickup, deliveryType, k) &&
      SortByDistance(EligibleCandidates(cs, pickup, deliveryType))[0] ==
        Candidate(cs[k], CalculateDistance(cs[k].location, pickup))
  {
    var rest := cs[1..];
    var head := Candidate(cs[0], CalculateDistance(cs[0].location, pickup));
    var restE := EligibleCandidates(rest, pickup, deliveryType);
    var all := EligibleCandidates(cs, pickup, deliveryType);
    assert all == [head] + restE;
    assert SortByDistance(all) == Insert(head, SortByDistance(restE));
    if head.distance <= CalculateDistance(rest[k'].location, pickup) {
      assert forall j :: 1 <= j < |cs| ==> cs[j] == rest[j - 1];
      NearestAtHead(cs, pickup, deliveryType);
      assert SortByDistance(all)[0] == head;
    } else {
      NearestShifts(cs, pickup, deliveryType, k');
      assert cs[k' + 1] == rest[k'];
    }
  }

  /** The head of the stable sort of the eligible candidates is the nearest courier. */
  lemma {:induction false} SortedHeadIsNearest(cs: seq<CourierRecord>, pickup: Point, deliveryType: string)
    requires EligibleCandidates(cs, pickup, deliveryType) != []
    ensures exists k ::
      IsNearest(cs, pickup, deliveryType, k) &&
      SortByDistance(EligibleCandidates(cs, pickup, deliveryType))[0] ==
        Candidate(cs[k], CalculateDistance(cs[k].location, pickup))
  {
    var rest := cs[1..];
    var head := Candidate(cs[0], CalculateDistance(cs[0].location, pickup));
    var restE := EligibleCandidates(rest, pickup, deliveryType);
    var all := EligibleCandidates(cs, pickup, deliveryType);
    if restE == [] {
      assert forall j :: 1 <= j < |cs| ==> cs[j] == rest[j - 1];
      assert all == [head];
      NearestAtHead(cs, pickup, deliveryType);
      assert SortByDistance(all)[0] == head;
    } else {
      SortedHeadIsNearest(rest, pickup, deliveryType);
      var k' :| IsNearest(rest, pickup, deliveryType, k') &&
        SortByDistance(restE)[0] == Candidate(rest[k'], CalculateDistance(rest[k'].location, pickup));
      if !Eligible(cs[0], pickup, deliveryType) {
        assert all == restE;
        NearestShifts(cs, pickup, deliveryType, k');
        assert cs[k' + 1] == rest[k'];
      } else {
        SortedHeadInserted(cs, pickup, deliveryType, k');
      }
    }
  }

  /** At most one courier is the nearest: the first among those at the least distance. */
  lemma NearestIsUnique(cs: seq<CourierRecord>, pickup: Point, deliveryType: string)
    ensures forall k1, k2 :: IsNearest(cs, pickup, deliveryType, k1) && IsNearest(cs, pickup, deliveryType, k2) ==> k1 == k2
  {
  }

  /**
   * `findNearestAvailableCourier(pickupLocation, deliveryType)` over the
   * snapshot `cs` of the courier store: None when no courier is eligible,
   * otherwise the nearest eligible courier, the first one in iteration
   * order among those at the least distance.
   */
  function FindNearestAvailableCourier(cs: seq<CourierRecord>, pickup: Point, deliveryType: string): (r: Option<Candidate>)
    ensures r.None? <==> forall k :: 0 <= k < |cs| ==> !Eligible(cs[k], pickup, deliveryType)
    ensures r.Some? ==> exists k ::
      IsNearest(cs, pickup, deliveryType, k) &&
      r.value == Candidate(cs[k], CalculateDistance(cs[k].location, pickup))
  {
    var available := AvailableCouriers(cs);
    if |available| == 0 then
      assert forall k :: 0 <= k < |cs| ==> cs[k] in cs;
      None
    else
      var withDistance := WithDistances(available, pickup);
      var eligible := if deliveryType == EXPRESS then WithinExpressRange(withDistance) else withDistance;
      PipelineIsEligible(cs, pickup, deliveryType);
      if |eligible| == 0 then None
      else
        SortedHeadIsNearest(cs, pickup, deliveryType);
        Some(SortByDistance(eligible)[0])
  }

  /** With Normal delivery distance never excludes a courier: any available courier gives a match. */
  lemma NormalIgnoresDistance(cs: seq<CourierRecord>, pickup: Point, k: int)
    requires 0 <= k < |cs| && cs[k].isAvailable
    ensures FindNearestAvailableCourier(cs, pickup, NORMAL).Some?
  {
    assert Eligible(cs[k], pickup, NORMAL);
  }

  /** With Express delivery a courier at exactly the limit is eligible, one beyond it is not. */
  lemma ExpressLimitInclusive(cs: seq<CourierRecord>, pickup: Point, k: int)
    requires 0 <= k < |cs| && cs[k].isAvailable
    ensures CalculateDistance(cs[k].location, pickup) <= EXPRESS_MAX_DISTANCE ==>
      FindNearestAvailableCourier(cs, pickup, EXPRESS).Some? &&
      FindNearestAvailableCourier(cs, pickup, EXPRESS).value.distance <= CalculateDistance(cs[k].location, pickup)
    ensures CalculateDistance(cs[k].location, pickup) > EXPRESS_MAX_DISTANCE ==>
      FindNearestAvailableCourier(cs, pickup, EXPRESS) != Some(Candidate(cs[k], CalculateDistance(cs[k].location, pickup)))
  {
    if CalculateDistance(cs[k].location, pickup) <= EXPRESS_MAX_DISTANCE {
      assert Eligible(cs[k], pickup, EXPRESS);
    }
  }

  /** With Express delivery no courier is found when every courier is beyond the limit. */
  lemma ExpressOutOfRange(cs: seq<CourierRecord>, pickup: Point)
    requires forall k :: 0 <= k < |cs| ==> CalculateDistance(cs[k].location, pickup) > EXPRESS_MAX_DISTANCE
    ensures FindNearestAvailableCourier(cs, pickup, EXPRESS).None?
  {
    forall k | 0 <= k < |cs|
      ensures !Eligible(cs[k], pickup, EXPRESS)
    {
    }
  }

  /** Why a registry operation failed. */
  datatype CourierError = CurrentlyBeingAssigned | CourierNotFound | CourierNotAvailable

  /** The courier registry: the courier store and the couriers whose reservation is in flight. */
  class Registry {
    const db: Store
    var assignmentLock: set<string>

    ghost predicate Valid()
      reads this, db
    {
      db.Valid()
    }

    constructor (db: Store)
      requires db.Valid()
      ensures Valid() && this.db == db && assignmentLock == {}
    {
      this.db := db;
      assignmentLock := {};
    }

    /** `getAllCouriers()`: every stored courier, in insertion order. */
    function GetAllCouriers(): (r: seq<CourierRecord>)
      reads this, db
      requires Valid()
      ensures |r| == |db.courierIds|
      ensures forall c :: c in r <==> c in db.couriers.Values
    {
      ValuesComplete(db.couriers, db.courierIds);
      db.AllCouriers()
    }

    /** `getCourierById(courierId)` */
    function GetCourierById(courierId: string): (r: Option<CourierRecord>)
      reads this, db
      requires Valid()
      ensures r.Some? <==> courierId in db.couriers
      ensures r.Some? ==> r.value == db.couriers[courierId] && r.value.id == courierId
    {
      if courierId in db.couriers then Some(db.couriers[courierId]) else None
    }

    /**
     * `assignCourierToOrder(courierId, orderId)`: refuses a courier already in
     * the lock, a missing one and an unavailable one, changing nothing;
     * otherwise reserves the courier for the order and leaves it in the lock.
     */
    method AssignCourierToOrder(courierId: string, orderId: string) returns (r: Result<CourierRecord, CourierError>)
      requires Valid()
      modifies this, db
      ensures Valid()
      ensures db.orders == old(db.orders) && db.orderIds == old(db.orderIds) && db.courierIds == old(db.courierIds)
      ensures courierId in old(assignmentLock) ==> r == Err(CurrentlyBeingAssigned)
      ensures courierId !in old(assignmentLock) && courierId !in old(db.couriers) ==> r == Err(CourierNotFound)
      ensures courierId !in old(assignmentLock) && courierId in old(db.couriers) && !old(db.couriers[courierId].isAvailable) ==>
        r == Err(CourierNotAvailable)
      ensures r.Ok? <==>
        courierId !in old(assignmentLock) && courierId in old(db.couriers) && old(db.couriers[courierId].isAvailable)
      ensures r.Err? ==> db.couriers == old(db.couriers) && assignmentLock == old(assignmentLock)
      ensures r.Ok? ==>
        courierId !in old(assignmentLock) && courierId in old(db.couriers) && old(db.couriers[courierId].isAvailable) &&
        r.value == MarkedUnavailable(old(db.couriers[courierId]), orderId) &&
        db.couriers == old(db.couriers)[courierId := r.value] &&
        assignmentLock == old(assignmentLock) + {courierId}
    {
      if courierId in assignmentLock {
        return Err(CurrentlyBeingAssigned);
      }
      assignmentLock := assignmentLock + {courierId};
      if courierId !in db.couriers {
        assignmentLock := assignmentLock - {courierId};
        return Err(CourierNotFound);
      }
      var courier := db.couriers[courierId];
      if !courier.isAvailable {
        assignmentLock := assignmentLock - {courierId};
        return Err(CourierNotAvailable);
      }
      var reserved := MarkedUnavailable(courier, orderId);
      db.SetCourier(reserved);
      r := Ok(reserved);
    }

    /** The delayed `assignmentLock.delete(courierId)` that a successful reservation schedules. */
    method ClearLock(courierId: string)
      modifies this
      ensures assignmentLock == old(assignmentLock) - {courierId}
    {
      assignmentLock := assignmentLock - {courierId};
    }

    /** `releaseCourier(courierId)`: frees the courier whatever it was doing. */
    method ReleaseCourier(courierId: string) returns (r: Outcome<CourierError>)
      requires Valid()
      modifies db
      ensures Valid()
      ensures db.orders == old(db.orders) && db.orderIds == old(db.orderIds) && db.courierIds == old(db.courierIds)
      ensures r == Pass <==> courierId in old(db.couriers)
      ensures r != Pass ==> r == Fail(CourierNotFound) && db.couriers == old(db.couriers)
      ensures r == Pass ==> db.couriers == old(db.couriers)[courierId := MarkedAvailable(old(db.couriers[courierId]))]
    {
      if courierId !in db.couriers {
        return Fail(CourierNotFound);
      }
      db.SetCourier(MarkedAvailable(db.couriers[courierId]));
      r := Pass;
    }

    /** `updateCourierLocation(courierId, newLocation)`: overwrites the location only. */
    method UpdateCourierLocation(courierId: string, newLocation: Point) returns (r: Result<CourierRecord, CourierError>)
      requires Valid()
      modifies db
      ensures Valid()
      ensures db.orders == old(db.orders) && db.orderIds == old(db.orderIds) && db.courierIds == old(db.courierIds)
      ensures r.Ok? <==> courierId in old(db.couriers)
      ensures r.Err? ==> r.error == CourierNotFound && db.couriers == old(db.couriers)
      ensures r.Ok? ==>
        r.value == old(db.couriers[courierId]).(location := newLocation) &&
        db.couriers == old(db.couriers)[courierId := r.value]
      ensures old(Linked(db.couriers, db.orders)) ==> Linked(db.couriers, db.orders)
    {
      if courierId !in db.couriers {
        return Err(CourierNotFound);
      }
      if Linked(db.couriers, db.orders) {
        MoveKeepsLinked(db.couriers, db.orders, courierId, newLocation);
      }
      var moved := db.couriers[courierId].(location := newLocation);
      db.SetCourier(moved);
      r := Ok(moved);
    }
  }
}
