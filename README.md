# Courier dispatch engine, modelled in Dafny

This project models the core of a small courier-dispatch service. The
service keeps two in-memory keyed stores, one of couriers and one of
orders, and a set of couriers whose reservation is in flight (the
*assignment lock*). On top of these it provides:

- Manhattan distance between integer points;
- input validators and the order state machine
  `CREATED → ASSIGNED → PICKED_UP → IN_TRANSIT → DELIVERED`, where
  `CANCELLED` can be reached from every non-terminal state;
- courier matching: the nearest available courier, capped at 15 units for
  `Express`, with ties going to the first courier in store order;
- lock-guarded courier reservation, unconditional release and location
  overwrite;
- order creation with a single match-and-reserve attempt;
- validated state transitions, which free the courier on `DELIVERED` or
  `CANCELLED`;
- a delivery simulation that steps a courier toward its pickup or drop and
  advances the order, with start/stop bookkeeping of running simulations;
- the seeding of ten couriers.

## How the model is built

The model follows the source's own form:

- **Pure code** is written as functions and lemmas. This covers the
  distance, the validators, matching and the getters.
- **Code that mutates** is written as classes with `modifies` clauses:
  - `Database.Store` holds the two stores. Each JavaScript `Map` becomes a
    `map` plus a `seq` of keys in insertion order, which is the order
    `values()` iterates in.
  - `CourierService.Registry` adds the assignment lock and the courier
    operations.
  - `SimulationService.Simulator` holds the `simulations` map.
  - `CourierModel.Courier` and `OrderModel.Order` are the record classes.
- **Each mutating method** states its new state through a function of the
  old state. For example, `SimulateDelivery` leaves the stores equal to
  `Advance(old stores)`.
- **Engine invariant.** The properties promised about one tick, one
  creation or one transition are lemmas about those functions. The
  cross-store invariant `Database.Linked` is:
  - `""` is not a courier key;
  - a courier is unavailable iff it carries an order;
  - an active order that names a courier names a stored courier whose
    current order is that order;
  - a courier that carries an order carries a stored, active order that
    names that courier;
  - a CREATED order names no courier.

  `CreateOrder`, `UpdateOrderState`, `SimulateDelivery`, `Simulator.Tick`
  and `Registry.UpdateCourierLocation` preserve `Linked`, and
  `InitializeDatabase` establishes it. `Registry.AssignCourierToOrder` and
  `Registry.ReleaseCourier` alone do not: reserving a courier for an order
  id that is not stored, or releasing the courier of an ASSIGNED order,
  leaves the stores unlinked. Inside `createOrder` and `updateOrderState`
  they are always paired with the matching order update.
- **Records are values.** The stores hold values, `CourierRecord` and
  `OrderRecord`, and an in-place field write becomes a store update with
  the modified record.
- **Dynamic JavaScript input** is the datatype `JsValues.JsValue`. This
  covers undefined, null, booleans, numbers including NaN and the
  infinities, strings and objects. `ValidateLocation`,
  `ValidateDeliveryType`, `SanitizeDeliveryType`, `SanitizeString`,
  `ValidateOrderState` and `createOrder` take their input in this form.
  State names passed to `ValidateStateTransition` and `updateOrderState`
  are strings.
- **Non-deterministic inputs become parameters.** `uuidv4()`, `new Date()`,
  `Date.now()` and `Math.random()` are supplied by the caller:
  - `CreateOrder` takes the order id and the clock reading;
  - `StartAutoSimulation` takes the fresh simulation id;
  - `InitializeDatabase` takes the twenty random draws as reals in [0, 1).
- **Timers become explicit steps.** The 100 ms `setTimeout` that clears the
  assignment lock is the step `Registry.ClearLock`. One firing of a
  simulation's `setInterval` callback is `Simulator.Tick`.

Behaviour of the code that a reader may not expect, kept by the model:

- The assignment lock stays set after a successful reservation until
  `ClearLock` — the timer — runs. It is not cleared at the end of the
  reservation attempt.
- `updateOrderState` accepts `CREATED → ASSIGNED` on an order that has no
  courier. `Linked` therefore constrains only orders that name a courier.
- A terminal order keeps its `courierId`.
- A fresh simulation id that collides with a running simulation's id
  replaces that simulation's entry, as `Map.set` does.

## Model

| member | source | states |
|---|---|---|
| Distance.CalculateDistance | src/utils/distance.js:13-17 | the distance is a natural number, zero exactly when the two points coincide |
| Distance.DistanceExample | src/utils/test.js:9-10 | from (0,0) to (3,4) the distance is 7 |
| Distance.DistanceSymmetric | src/utils/distance.js:14-16 | d(a,b) = d(b,a) |
| Distance.TriangleInequality | src/utils/distance.js:14-16 | d(a,c) ≤ d(a,b) + d(b,c) |
| JsValues.OrElse | src/services/orderService.js:59-60 | `v \|\| fallback` keeps a truthy value and otherwise gives the fallback |
| JsValues.TrimStart | src/utils/validators.js:48 | the result is a suffix of the input, everything dropped is whitespace, and the result does not start with whitespace |
| JsValues.TrimEnd | src/utils/validators.js:59 | the result is a prefix of the input, everything dropped is whitespace, and the result does not end with whitespace |
| JsValues.ToLower | src/utils/validators.js:48 | same length as the input, and each character is mapped on its own |
| JsValues.NatToStringInjective | src/utils/database.js:15 | distinct numbers render as distinct decimal strings |
| Validators.ValidateLocation | src/utils/validators.js:4-24 | passes iff the value is an object whose x and y are finite numbers in [-10000, 10000]; each failure kind is returned exactly when the earlier checks pass and its own check fails (non-object, then non-number, then non-finite, then out of range) |
| Validators.LocationPoint | src/utils/validators.js:4-24 | the point of a validated location carries its x and y, within range |
| Validators.LocationExamples | src/utils/test.js:12-15 | {x:1,y:2} passes; {x:'a'} is not numbers; null is not an object; y = -10001 is out of range |
| Validators.ValidateDeliveryType | src/utils/validators.js:29-40 | passes exactly for the strings "Express" and "Normal", case-sensitive |
| Validators.SanitizeDeliveryType | src/utils/validators.js:46-52 | "Express"/"Normal" exactly when the input is a string whose trimmed, lower-cased form is express/normal; otherwise null, including for non-strings; a result always validates |
| Validators.SanitizeExpressFixed | src/utils/validators.js:46-52 | "Express" sanitises to itself |
| Validators.SanitizeNormalFixed | src/utils/validators.js:46-52 | "Normal" sanitises to itself |
| Validators.TrimPadding | src/utils/validators.js:48 | trimming a word wrapped in any whitespace gives back exactly the word |
| Validators.SanitizeDeliveryTypePadded | src/utils/validators.js:46-52 | padding and case do not matter: "Express" or "EXPRESS" wrapped in any whitespace gives "Express" |
| Validators.SanitizeString | src/utils/validators.js:57-60 | the identity on non-strings; on a string, a slice of the input with only whitespace cut off either end, neither starting nor ending with whitespace |
| Validators.TrimIsInfix | src/utils/validators.js:59 | `trim` keeps a slice of the string, cuts only whitespace off either end, and leaves no whitespace at the ends |
| Validators.TrimIdempotent | src/utils/validators.js:59 | trimming twice is trimming once |
| Validators.SanitizeStringIdempotent | src/utils/validators.js:57-60 | sanitising twice is sanitising once |
| Validators.ValidateOrderState | src/utils/validators.js:65-83 | passes exactly for the six state names |
| Validators.AllowedTransitions | src/utils/validators.js:96-103 | the table has an entry exactly for the six states, and the entry is empty exactly for the two terminal states |
| Validators.ValidateStateTransition | src/utils/validators.js:95-124 | an accepted transition goes from a live state to a different state; the unknown-state error iff the current state is off the table; the terminal error iff it is DELIVERED or CANCELLED; an illegal transition reports the current state's list, which lacks the target (the exact accepted pairs are TransitionAcceptedExactly) |
| Validators.TransitionAcceptedExactly | src/utils/validators.js:95-124 | a transition is accepted iff it is one of the eight pairs of the table (both directions) |
| Validators.UnknownCurrentState | src/utils/validators.js:105-107 | a current state off the table gives the invalid-current-state error, whatever the target |
| Validators.NoMoveFromTerminal | src/utils/validators.js:109-116 | from DELIVERED or CANCELLED every target gives the terminal-state error, never the illegal-transition error |
| Validators.IllegalFromLiveState | src/utils/validators.js:117-120 | from a live state, a target outside its list gives the illegal-transition error carrying that list |
| Validators.CancelFromEveryLiveState | src/utils/validators.js:96-103 | every live state may be cancelled, and none may return to CREATED |
| Validators.TransitionExamples | src/utils/test.js:22-25 | CREATED→ASSIGNED is accepted; CREATED→DELIVERED is illegal with allowed [ASSIGNED, CANCELLED]; DELIVERED→ASSIGNED is the terminal-state error |
| CourierModel.MarkedUnavailable | src/models/Courier.js:10-13 | unavailable and carrying the order; id, name and location unchanged; availability stays consistent |
| CourierModel.MarkedAvailable | src/models/Courier.js:15-18 | available with no order; id, name and location unchanged; availability stays consistent |
| CourierModel.MarkRoundTrip | src/models/Courier.js:10-18 | marking a free courier unavailable and then available gives it back unchanged |
| CourierModel.Courier.constructor | src/models/Courier.js:2-8 | a new courier is available with no order, at (0,0) unless given a location |
| CourierModel.Courier.MarkAsUnavailable | src/models/Courier.js:10-13 | the object's record becomes MarkedUnavailable of its old record |
| CourierModel.Courier.MarkAsAvailable | src/models/Courier.js:15-18 | the object's record becomes MarkedAvailable of its old record |
| OrderModel.Defaulted | src/models/Order.js:2-13 | a destructuring default replaces undefined by the default and keeps every other value |
| OrderModel.Construct | src/models/Order.js:2-24 | id and courierId are copied, and locations and details given are copied unchanged |
| OrderModel.DefaultOrder | src/models/Order.js:2-13 | an order given only its id is CREATED, has no courier, is Normal, sits at (0,0)→(0,0), has empty details and takes the clock for both timestamps |
| OrderModel.WithState | src/models/Order.js:40-41 | sets the state and updatedAt and nothing else |
| OrderModel.Order.constructor | src/models/Order.js:2-24 | the object's record is Construct of the argument |
| OrderModel.Order.UpdateState | src/models/Order.js:26-42 | succeeds iff the name is one of the six states, then sets the state and updatedAt only; otherwise fails with the name and leaves the order unchanged; the transition table is not consulted |
| Database.KeysAfterSet | src/utils/database.js:26 | `Map.set` appends a new key and keeps an existing key in its place |
| Database.SetKeepsOrder | src/utils/database.js:26 | `Map.set` keeps the key list exact and duplicate-free |
| Database.Values | src/services/courierService.js:16 | `Array.from(m.values())` lists the value of every key, in key order |
| Database.ValuesComplete | src/services/courierService.js:137-139 | every stored value appears in the listing |
| Database.LinkedExclusive | src/tests/testConcurrency.js:124-135 | in linked stores, two distinct active orders never name the same courier |
| Database.LinkedUnavailableIffHeld | src/services/courierService.js:81-82 | in linked stores, a courier is unavailable iff some active order names it |
| Database.CourierIdInjective | src/utils/database.js:15 | distinct loop indices give distinct courier ids |
| Database.SeedCoordinate | src/utils/database.js:20-21 | `Math.floor(u * 101)` of a draw in [0,1) is an integer in [0, 100] |
| Database.SeedCourier | src/utils/database.js:15-25 | the i-th seeded courier has id courier-i, is available with no order, and lies in [0,100]² |
| Database.SeedIdsSpelledOut | src/utils/database.js:14-15 | the ids the loop builds are courier-1 … courier-10 |
| Database.Store.constructor | src/utils/database.js:2-3 | both stores start empty |
| Database.Store.SetCourier | src/services/courierService.js:81-82 | stores the record under its id, updating the key order as `Map.set` does; orders unchanged |
| Database.Store.SetOrder | src/services/orderService.js:72 | stores the record under its id, updating the key order as `Map.set` does; couriers unchanged |
| Database.Store.InitializeDatabase | src/utils/database.js:8-30 | afterwards the order store is empty, the couriers are exactly courier-1 … courier-10 in that order, each the seeded record for its draws, and the stores are linked |
| CourierService.AvailableCouriers | src/services/courierService.js:16-18 | keeps exactly the available couriers |
| CourierService.WithDistances | src/services/courierService.js:25-28 | pairs each courier, in order, with its distance to the pickup |
| CourierService.WithinExpressRange | src/services/courierService.js:35-37 | keeps exactly the candidates within 15 units |
| CourierService.Insert | src/services/courierService.js:45 | inserting keeps every element, puts x first when it is no farther than the head |
| CourierService.InsertKeepsSorted | src/services/courierService.js:45 | inserting into a list sorted by distance keeps it sorted |
| CourierService.SortByDistance | src/services/courierService.js:45 | the sort is a permutation of its input, ordered by distance; its stability shows in SortedHeadIsNearest |
| CourierService.NearestIsUnique | src/services/courierService.js:44-46 | at most one courier is the nearest in the sense of IsNearest |
| CourierService.EligibleCandidates | src/services/courierService.js:16-38 | empty exactly when no courier is eligible |
| CourierService.PipelineIsEligible | src/services/courierService.js:16-38 | the filter, map and Express-filter pipeline computes exactly the eligible couriers with their distances, in store order |
| CourierService.SortedHeadIsNearest | src/services/courierService.js:44-46 | the head of the stable sort is a nearest eligible courier, and the first in store order among those at the least distance |
| CourierService.FindNearestAvailableCourier | src/services/courierService.js:14-47 | null iff no courier is eligible (available, and within 15 for Express); otherwise an eligible courier no farther than any eligible courier and strictly nearer than every eligible courier before it, with its distance |
| CourierService.NormalIgnoresDistance | src/services/courierService.js:30-38 | for Normal, any available courier guarantees a match |
| CourierService.ExpressOutOfRange | src/services/courierService.js:33-42 | for Express, no courier is matched when every courier is beyond 15 |
| CourierService.ExpressLimitInclusive | src/tests/testExpressDistanceLimit.js:107-129 | for Express, in any store, an available courier within 15 (exactly 15 included) guarantees a match no farther than it, and a courier beyond 15 is never the match |
| CourierService.Registry.constructor | src/services/courierService.js:6 | the lock starts empty |
| CourierService.Registry.GetAllCouriers | src/services/courierService.js:137-139 | lists exactly the stored couriers, one per key |
| CourierService.Registry.GetCourierById | src/services/courierService.js:146-148 | the stored courier under that id, or null iff there is none |
| CourierService.Registry.AssignCourierToOrder | src/services/courierService.js:56-95 | fails with "currently being assigned" for a locked courier, "not found" for a missing one and "not available" for a busy one, each time changing neither the store nor the lock; otherwise succeeds (iff none of these hold), marks the courier unavailable with the order and leaves it in the lock |
| CourierService.Registry.ClearLock | src/services/courierService.js:85-87 | the delayed lock clearing removes only that courier from the lock |
| CourierService.Registry.ReleaseCourier | src/services/courierService.js:102-113 | succeeds iff the courier exists, then marks it available with no order whatever its prior state; otherwise fails with "not found" and changes nothing |
| CourierService.Registry.UpdateCourierLocation | src/services/courierService.js:121-131 | succeeds iff the courier exists, then replaces only its location; otherwise fails with "not found" and changes nothing; linked stores stay linked |
| OrderService.CheckOrderInput | src/services/orderService.js:29-50 | passes iff both locations validate, the delivery type is Express or Normal and some details are truthy; a bad pickup is reported before a bad drop, a bad drop before a bad delivery type, and a bad delivery type before missing details |
| OrderService.NewOrder | src/services/orderService.js:52-65 | the new order is CREATED with no courier, carries the given id, locations and delivery type, stores each details field as the caller's value or `''` when that value is falsy (so at least one is truthy), and takes the clock for both timestamps |
| OrderService.ReleasedFor | src/services/orderService.js:127-135 | the release step keeps every courier key; on a terminal transition of an order holding a stored courier that courier is marked available; no other courier changes, and nothing changes on a live transition or for an order without a courier |
| OrderService.StoreUnassignedKeepsLinked | src/services/orderService.js:70-77 | storing a new unassigned order keeps the stores linked |
| OrderService.StoreAssignedKeepsLinked | src/services/orderService.js:79-89 | reserving an available courier for a new ASSIGNED order keeps the stores linked |
| OrderService.TransitionKeepsLinked | src/services/orderService.js:112-142 | every accepted transition, with its release step, keeps the stores linked |
| Database.MoveKeepsLinked | src/services/courierService.js:121-131 | moving a courier keeps the stores linked |
| OrderService.CandidateIsStored | src/services/orderService.js:68-81 | the matched courier is the one stored under its id, and it is available |
| OrderService.PlannedAssignment | src/services/orderService.js:67-103 | no courier iff none is eligible; when there is a nearest eligible courier, the order is assigned to it iff it is not locked, and otherwise fails with the lock error; no second courier is tried |
| OrderService.Placed | src/services/orderService.js:83-89 | an assigned order becomes ASSIGNED with the courier's id; otherwise the order is stored as built; no other field changes |
| OrderService.StoreUnassigned | src/services/orderService.js:72 | appends the order to the store, leaves the couriers alone and keeps the stores linked |
| OrderService.CreateOrder | src/services/orderService.js:20-104 | fails iff validation fails, with the first failing check, and then changes nothing; otherwise stores exactly one new order, Placed according to PlannedAssignment; on assignment that courier is reserved for the order and locked; otherwise no courier and no lock entry changes; the stores stay linked |
| OrderService.UpdateOrderState | src/services/orderService.js:112-142 | an unknown id gives "order not found"; a rejected transition gives the validator's verdict; both leave the stores unchanged; an accepted one sets the state and updatedAt, keeps the courierId, releases the courier on DELIVERED/CANCELLED (a missing courier does not block it), and keeps the stores linked |
| OrderService.GetOrderById | src/services/orderService.js:149-151 | the stored order under that id, or null iff there is none |
| OrderService.GetAllOrders | src/services/orderService.js:157-159 | lists exactly the stored orders, one per key |
| OrderService.WithCourier | src/services/orderService.js:167-169 | keeps exactly the orders naming the courier, in their order (a subsequence of the input) |
| OrderService.GetOrdersByCourier | src/services/orderService.js:166-170 | exactly the stored orders whose courierId is the given id |
| SimulationService.MoveTowards | src/services/simulationService.js:9-16 | each axis moves toward the target by the smaller of its remaining distance and its cap, ceil(maxStep/2) for x and floor(maxStep/2) for y, so neither axis passes the target |
| SimulationService.MoveShortensByStep | src/services/simulationService.js:10-15 | the remaining distance drops by exactly the length of the step |
| SimulationService.MoveNeverFurther | src/services/simulationService.js:10-15 | a step never increases the distance to the target |
| SimulationService.MoveStrictlyCloser | src/services/simulationService.js:39 | with steps of 2, as every tick uses, a courier not at the target gets strictly closer |
| SimulationService.UnitStepStallsOnY | src/services/simulationService.js:13-14 | with a step of 1 a courier directly above its target does not move |
| SimulationService.MoveAtTarget | src/services/simulationService.js:9-16 | a courier at the target stays there |
| SimulationService.Transitioned | src/services/orderService.js:127-141 | the stores after an accepted transition: the order with its new state, the couriers after the release step |
| SimulationService.Moved | src/services/simulationService.js:40 | the stores after a location update of one courier |
| SimulationService.Advance | src/services/simulationService.js:22-65 | one tick on the stores: no record is added or removed and the order keeps its courier id; what each state does is stated by AdvanceWithoutCourier, AdvanceIdle, AdvanceTouchesOnly, AdvanceAssigned, AdvancePickedUp and AdvanceInTransit |
| SimulationService.AdvanceWithoutCourier | src/services/simulationService.js:26-32 | without a truthy, stored courier a tick changes nothing |
| SimulationService.AdvanceIdle | src/services/simulationService.js:34-61 | a tick on a CREATED, DELIVERED or CANCELLED order changes nothing |
| SimulationService.AdvanceTouchesOnly | src/services/simulationService.js:22-65 | a tick changes no other order and no other courier |
| SimulationService.AdvanceAssigned | src/services/simulationService.js:36-46 | ASSIGNED: the courier steps toward the pickup and nothing else about it changes; the order becomes PICKED_UP iff the new distance is at most 1, and otherwise stays ASSIGNED |
| SimulationService.AdvancePickedUp | src/services/simulationService.js:47-49 | PICKED_UP: the order becomes IN_TRANSIT; no courier changes |
| SimulationService.AdvanceInTransit | src/services/simulationService.js:50-60 | IN_TRANSIT: the courier steps toward the drop; within distance 1 the order is DELIVERED and the courier is free; otherwise the order is unchanged and the courier only moved |
| SimulationService.AdvanceProgresses | src/services/simulationService.js:36-60 | every tick of an active order with a courier advances the order or brings the courier strictly closer to its target |
| SimulationService.AdvanceKeepsLinked | src/services/simulationService.js:22-65 | a tick keeps the stores linked |
| SimulationService.StepToward | src/services/simulationService.js:36-45 | the courier's new location is one step toward the target, and the order takes the next state exactly when the courier is then within distance 1 |
| SimulationService.SimulateDelivery | src/services/simulationService.js:22-65 | an unknown order gives "order not found" and changes nothing; otherwise the stores become Advance of the old stores, and the returned snapshot is the order and its courier as they are now (no courier when there is none to simulate); the stores stay linked |
| SimulationService.SimulationFor | src/services/simulationService.js:72-74 | finds a simulation driving the order, or none iff no simulation drives it |
| SimulationService.SimulationForFirst | src/services/simulationService.js:72-74 | the search returns the first such simulation in insertion order |
| SimulationService.Registered | src/services/simulationService.js:93 | the new entry maps the simulation id to the order, and no other entry changes |
| SimulationService.RegisteredOnePerOrder | src/services/simulationService.js:71-95 | starting a simulation keeps at most one simulation per order |
| SimulationService.RegisteredIsFound | src/services/simulationService.js:71-95 | once started, a second start for the same order finds the first simulation, whatever fresh id it would use |
| SimulationService.Without | src/services/simulationService.js:101 | the key order after `delete` holds exactly the other keys, in their order (a subsequence of the input) |
| SimulationService.WithoutKeepsOrder | src/services/simulationService.js:101 | `delete` keeps the key list exact and duplicate-free |
| SimulationService.WithoutOfAbsent | src/services/simulationService.js:98-99 | deleting an absent key leaves the key order as it was |
| SimulationService.RemovedOnePerOrder | src/services/simulationService.js:101 | removing a simulation keeps at most one simulation per order |
| SimulationService.Simulator.constructor | src/services/simulationService.js:7 | no simulation runs at first |
| SimulationService.Simulator.StartAutoSimulation | src/services/simulationService.js:70-95 | returns the first simulation already driving the order and changes nothing; otherwise registers the fresh id for the order and returns it |
| SimulationService.Simulator.StopSimulation | src/services/simulationService.js:97-103 | returns false for an unknown id; otherwise removes exactly that simulation and returns true |
| SimulationService.Simulator.Tick | src/services/simulationService.js:78-91 | runs one tick and stops the simulation iff the tick failed or the order is now DELIVERED or CANCELLED; the stores stay linked |
| Scenarios.ReserveTwice | src/services/testCourierService.js:32-50 | a first reservation succeeds; a second fails while the lock is set, and fails as "not available" once it clears |
| Scenarios.ReleaseThenReserve | src/services/testCourierService.js:52-63 | after a release and the lock clearing, the courier can be reserved again |
| Scenarios.NormalOrderIsAssigned | src/tests/testExpressDistanceLimit.js:80-105 | a valid Normal order placed while some courier is available and nothing is locked is ASSIGNED |
| Scenarios.DistantExpressOrderIsUnassigned | src/tests/testExpressDistanceLimit.js:54-77 | an Express order out of every courier's range is stored CREATED, with no courier, and no courier changes |
| Scenarios.LinkedNoSharedCourier | src/tests/testConcurrency.js:124-149 | linked stores never give two active orders the same courier |
| Scenarios.RapidCreates | src/tests/testConcurrency.js:104-149 | however ten or any number of creations fall, no courier ends up holding two active orders |

## Left out

- HTTP layer, middleware, routes and controllers (`src/controllers`, `src/routes`, `src/middleware`, `src/server.js`): request plumbing and status-code mapping, not engine logic.
- Test and demo drivers: they print to the console. A few of their checks appear as `Scenarios` members and lemmas.
- Error messages: failures are datatype values, not the message strings the source builds, and the model does not render the message of a created order.
- Logging (`console.log`, and the logged release failure in `updateOrderState`): output only.
- Concurrency and timers: every operation is one atomic step. The lock-clearing `setTimeout` is `Registry.ClearLock`, and a firing of a simulation's `setInterval` is `Simulator.Tick`. Interval lengths, real-time interleaving and `clearInterval` are not modelled, apart from removing the entry.
- `uuidv4()`, `new Date()`, `Date.now()` and `Math.random()`: their values are parameters. The `sim-<time>-<random>` id format is not modelled. One clock reading `now` stands for every `new Date()` of one call, so `createOrder`'s two `new Date()` arguments and its later `updatedAt` all get the same value and `createdAt == updatedAt` after an assignment.
- OrderService.CreateOrder: requires that the fresh order id is not already stored, because `uuidv4()` does not repeat.
- Floating point: coordinates and finite numbers are integers, so the `Number.EPSILON * 100` tolerance of the Express bound disappears and the bound is exactly 15. Fractional coordinates are not modelled.
- JsValues.ToLower: lower-cases only A to Z. This does not change any result of `sanitizeDeliveryType`, because the non-ASCII characters that lower-case to ASCII letters (such as U+0130 and U+212A) cannot produce "express" or "normal" through the comparisons the source makes.
- Aliasing: services return the stored objects themselves in the source, and the model returns copies of the records. A caller mutating a returned object is not modelled.
- Location objects are stored as points. Extra properties of a caller's location object and the JavaScript prototype chain are not modelled.
- OrderService.UpdateOrderState / Validators.ValidateStateTransition: `newState` is a string, as the JSDoc of `updateOrderState` says (src/services/orderService.js:109). A non-string state, which the source always rejects, is not modelled.
- `Order.updateState` is modelled on the record class but is not called by the services, as in the source. Its argument is a string; other JavaScript values are not modelled.
- Timestamps are integers. The constructor's `new Date(createdAt)` conversion of non-Date values is not modelled.
