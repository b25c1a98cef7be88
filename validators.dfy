/**
 * Input validators and the order state machine (src/utils/validators.js).
 * Every check is pure and returns its verdict instead of throwing.
 */
module Validators {
  import opened Wrappers
  import opened JsValues
  import opened Distance

  const MIN_COORD := -10000
  const MAX_COORD := 10000

  /** Why `validateLocation` refused a value, in the order the checks run. */
  datatype LocationError = NotAnObject | NotNumbers | NotFinite | OutOfRange

  /** A finite number within [MIN_COORD, MAX_COORD]. */
  predicate IsCoordinate(v: JsValue) {
    v.Number? && v.n.Finite? && MIN_COORD <= v.n.value <= MAX_COORD
  }

  /** `validateLocation(location)` */
  function ValidateLocation(location: JsValue): (r: Outcome<LocationError>)
    ensures r == Pass <==>
      location.Object? && IsCoordinate(Property(location, "x")) && IsCoordinate(Property(location, "y"))
    ensures r == Fail(NotAnObject) <==> !location.Object?
    ensures r == Fail(NotNumbers) <==>
      location.Object? && !(Property(location, "x").Number? && Property(location, "y").Number?)
    ensures r == Fail(NotFinite) <==>
      location.Object? && Property(location, "x").Number? && Property(location, "y").Number? &&
      !(Property(location, "x").n.Finite? && Property(location, "y").n.Finite?)
  {
    if !Truthy(location) || !location.Object? then Fail(NotAnObject)
    else
      var x, y := Property(location, "x"), Property(location, "y");
      if !x.Number? || !y.Number? then Fail(NotNumbers)
      else if !x.n.Finite? || !y.n.Finite? then Fail(NotFinite)
      else if x.n.value < MIN_COORD || x.n.value > MAX_COORD || y.n.value < MIN_COORD || y.n.value > MAX_COORD
      then Fail(OutOfRange)
      else Pass
  }

  /** The point a validated location denotes. */
  function LocationPoint(location: JsValue): (p: Point)
    requires ValidateLocation(location) == Pass
    ensures Property(location, "x") == Number(Finite(p.x)) && Property(location, "y") == Number(Finite(p.y))
    ensures MIN_COORD <= p.x <= MAX_COORD && MIN_COORD <= p.y <= MAX_COORD
  {
    Point(Property(location, "x").n.value, Property(location, "y").n.value)
  }

  const EXPRESS := "Express"
  const NORMAL := "Normal"
  const DELIVERY_TYPES := [EXPRESS, NORMAL]

  datatype DeliveryTypeError = NotADeliveryType

  /** `validateDeliveryType(type)`: exact, case-sensitive match. */
  function ValidateDeliveryType(t: JsValue): (r: Outcome<DeliveryTypeError>)
    ensures r == Pass <==> t == Str("Express") || t == Str("Normal")
  {
    if t.Str? && t.s in DELIVERY_TYPES then Pass else Fail(NotADeliveryType)
  }

  /** `sanitizeDeliveryType(input)`: trims, lower-cases and normalises. */
  function SanitizeDeliveryType(input: JsValue): (r: Option<string>)
    ensures r == Some(EXPRESS) <==> input.Str? && ToLower(Trim(input.s)) == "express"
    ensures r == Some(NORMAL) <==> input.Str? && ToLower(Trim(input.s)) == "normal"
    ensures r.Some? ==> r == Some(EXPRESS) || r == Some(NORMAL)
    ensures r.Some? ==> ValidateDeliveryType(Str(r.value)) == Pass
  {
    if !input.Str? then None
    else
      var s := ToLower(Trim(input.s));
      if s == "express" then Some(EXPRESS)
      else if s == "normal" then Some(NORMAL)
      else None
  }

  /** `sanitizeString(v)`: trims strings, passes every other value through. */
  function SanitizeString(v: JsValue): (r: JsValue)
    ensures !v.Str? ==> r == v
    ensures v.Str? ==> r.Str? && (r.s == [] || (!IsWhitespace(r.s[0]) && !IsWhitespace(r.s[|r.s| - 1])))
    ensures v.Str? ==> r.Str? && CutFrom(r.s, v.s)
  {
    if !v.Str? then v
    else
      TrimIsInfix(v.s);
      Str(Trim(v.s))
  }

  /** `s.trim()` is a slice of `s` with only whitespace cut off either end, and no whitespace at its own ends. */
  lemma TrimIsInfix(s: string)
    ensures var r := Trim(s);
      r == [] || (!IsWhitespace(r[0]) && !IsWhitespace(r[|r| - 1]))
    ensures CutFrom(Trim(s), s)
  {
    var t := TrimStart(s);
    var r := TrimEnd(t);
    var i := |s| - |t|;
    LeadCut(s);
    TailCut(t);
    assert s[i + |r|..] == t[|r|..];
    assert r == s[i..i + |r|];
    assert CutAt(r, s, i);
    if r != [] {
      assert r[0] == t[0];
    }
  }

  /** What `TrimStart` drops is whitespace. */
  lemma LeadCut(s: string)
    ensures AllWhitespace(s[..|s| - |TrimStart(s)|])
  {
    var i := |s| - |TrimStart(s)|;
    forall k | 0 <= k < i
      ensures IsWhitespace(s[..i][k])
    {
      assert s[..i][k] == s[k];
    }
  }

  /** What `TrimEnd` drops is whitespace. */
  lemma TailCut(t: string)
    ensures AllWhitespace(t[|TrimEnd(t)|..])
  {
    var n := |TrimEnd(t)|;
    forall k | 0 <= k < |t| - n
      ensures IsWhitespace(t[n..][k])
    {
      assert t[n..][k] == t[n + k];
    }
  }

  /** `r` is `s` with some whitespace cut off each end. */
  ghost predicate CutFrom(r: string, s: string) {
    exists i :: CutAt(r, s, i)
  }

  /** `r` is the slice of `s` from `i`, and everything around it is whitespace. */
  predicate CutAt(r: string, s: string, i: int) {
    0 <= i <= |s| - |r| && r == s[i..i + |r|] && AllWhitespace(s[..i]) && AllWhitespace(s[i + |r|..])
  }

  const CREATED := "CREATED"
  const ASSIGNED := "ASSIGNED"
  const PICKED_UP := "PICKED_UP"
  const IN_TRANSIT := "IN_TRANSIT"
  const DELIVERED := "DELIVERED"
  const CANCELLED := "CANCELLED"
  const ORDER_STATES := [CREATED, ASSIGNED, PICKED_UP, IN_TRANSIT, DELIVERED, CANCELLED]

  predicate IsOrderState(s: string) {
    s == CREATED || s == ASSIGNED || s == PICKED_UP || s == IN_TRANSIT || s == DELIVERED || s == CANCELLED
  }

  predicate IsTerminal(s: string) {
    s == DELIVERED || s == CANCELLED
  }

  datatype OrderStateError = NotAnOrderState

  /** `validateOrderState(state)` */
  function ValidateOrderState(state: JsValue): (r: Outcome<OrderStateError>)
    ensures r == Pass <==> state.Str? && IsOrderState(state.s)
  {
    if state.Str? && state.s in ORDER_STATES then Pass else Fail(NotAnOrderState)
  }

  /** The `stateTransitions` table: the states each state may move to, or None off the table. */
  function AllowedTransitions(state: string): (r: Option<seq<string>>)
    ensures r.Some? <==> IsOrderState(state)
    ensures r.Some? ==> (|r.value| == 0 <==> IsTerminal(state))
  {
    if state == CREATED then Some([ASSIGNED, CANCELLED])
    else if state == ASSIGNED then Some([PICKED_UP, CANCELLED])
    else if state == PICKED_UP then Some([IN_TRANSIT, CANCELLED])
    else if state == IN_TRANSIT then Some([DELIVERED, CANCELLED])
    else if state == DELIVERED then Some([])
    else if state == CANCELLED then Some([])
    else None
  }

  /** The outcome of `validateStateTransition`, one error kind per failing check. */
  datatype TransitionCheck =
    | TransitionOk
    | InvalidCurrentState(state: string)
    | TerminalState(state: string)
    | IllegalTransition(from: string, to: string, allowed: seq<string>)

  /** `validateStateTransition(currentState, newState)` */
  function ValidateStateTransition(current: string, next: string): (r: TransitionCheck)
    ensures r == TransitionOk ==> IsOrderState(current) && !IsTerminal(current) && IsOrderState(next) && next != current
    ensures r.InvalidCurrentState? <==> !IsOrderState(current)
    ensures r.TerminalState? <==> IsTerminal(current)
    ensures r.IllegalTransition? ==> r.allowed == AllowedTransitions(current).value && next !in r.allowed
  {
    match AllowedTransitions(current)
    case None => InvalidCurrentState(current)
    case Some(allowed) =>
      if next in allowed then TransitionOk
      else if |allowed| == 0 then TerminalState(current)
      else IllegalTransition(current, next, allowed)
  }

  /** The eight moves of the lifecycle. */
  const TRANSITIONS: set<(string, string)> := {
    (CREATED, ASSIGNED), (CREATED, CANCELLED),
    (ASSIGNED, PICKED_UP), (ASSIGNED, CANCELLED),
    (PICKED_UP, IN_TRANSIT), (PICKED_UP, CANCELLED),
    (IN_TRANSIT, DELIVERED), (IN_TRANSIT, CANCELLED)
  }

  /** A transition is accepted exactly when it is one of the eight moves. */
  lemma TransitionAcceptedExactly(current: string, next: string)
    ensures ValidateStateTransition(current, next) == TransitionOk <==> (current, next) in TRANSITIONS
  {
  }

  /** A current state off the table is reported as such, whatever the target. */
  lemma UnknownCurrentState(current: string, next: string)
    requires !IsOrderState(current)
    ensures ValidateStateTransition(current, next) == InvalidCurrentState(current)
  {
  }

  /** From DELIVERED or CANCELLED every target yields the terminal-state error. */
  lemma NoMoveFromTerminal(current: string, next: string)
    requires IsTerminal(current)
    ensures ValidateStateTransition(current, next) == TerminalState(current)
  {
  }

  /** From a live state, a target outside its list yields the illegal-transition error with that list. */
  lemma IllegalFromLiveState(current: string, next: string)
    requires IsOrderState(current) && !IsTerminal(current)
    requires (current, next) !in TRANSITIONS
    ensures ValidateStateTransition(current, next) == IllegalTransition(current, next, AllowedTransitions(current).value)
  {
  }

  /** Every live state may be cancelled; nothing ever returns to CREATED. */
  lemma CancelFromEveryLiveState(current: string)
    requires IsOrderState(current) && !IsTerminal(current)
    ensures ValidateStateTransition(current, CANCELLED) == TransitionOk
    ensures ValidateStateTransition(current, CREATED) != TransitionOk
  {
  }

  /** The cases printed by the validator demo. */
  lemma TransitionExamples()
    ensures ValidateStateTransition(CREATED, ASSIGNED) == TransitionOk
    ensures ValidateStateTransition(CREATED, DELIVERED) == IllegalTransition(CREATED, DELIVERED, [ASSIGNED, CANCELLED])
    ensures ValidateStateTransition(DELIVERED, ASSIGNED) == TerminalState(DELIVERED)
    ensures ValidateStateTransition(ASSIGNED, DELIVERED).IllegalTransition?
  {
  }

  /** Trimming a trimmed string changes nothing. */
  lemma {:induction false} TrimIdempotent(s: string)
    ensures Trim(Trim(s)) == Trim(s)
  {
    var t := Trim(s);
    var u := TrimStart(s);
    if t != [] {
      assert t[0] == u[0];
    }
    assert TrimStart(t) == t;
    assert TrimEnd(t) == t;
  }

  /** Sanitising a sanitised value changes nothing. */
  lemma SanitizeStringIdempotent(v: JsValue)
    ensures SanitizeString(SanitizeString(v)) == SanitizeString(v)
  {
    if v.Str? {
      TrimIdempotent(v.s);
    }
  }

  /** A string that neither starts nor ends with whitespace is its own trim. */
  lemma TrimUnpadded(s: string)
    requires s != [] && !IsWhitespace(s[0]) && !IsWhitespace(s[|s| - 1])
    ensures Trim(s) == s
  {
    assert TrimStart(s) == s;
  }

  /** Lower-casing "Express" or "EXPRESS" gives "express". */
  lemma LowerExpress(w: string)
    requires w == EXPRESS || w == "EXPRESS"
    ensures ToLower(w) == "express"
  {
    var e := ToLower(w);
    assert e[0] == 'e';
    assert e[1] == 'x';
    assert e[2] == 'p';
    assert e[3] == 'r';
    assert e[4] == 'e';
    assert e[5] == 's';
    assert e[6] == 's';
  }

  /** Lower-casing "Normal" gives "normal". */
  lemma LowerNormal()
    ensures ToLower(NORMAL) == "normal"
  {
    var n := ToLower(NORMAL);
    assert n[0] == 'n';
    assert n[1] == 'o';
    assert n[2] == 'r';
    assert n[3] == 'm';
    assert n[4] == 'a';
    assert n[5] == 'l';
  }

  /** "Express" sanitises to itself. */
  lemma SanitizeExpressFixed()
    ensures SanitizeDeliveryType(Str(EXPRESS)) == Some(EXPRESS)
  {
    TrimUnpadded(EXPRESS);
    LowerExpress(EXPRESS);
  }

  /** "Normal" sanitises to itself. */
  lemma SanitizeNormalFixed()
    ensures SanitizeDeliveryType(Str(NORMAL)) == Some(NORMAL)
  {
    TrimUnpadded(NORMAL);
    LowerNormal();
  }

  /** Every character of `s` is whitespace. */
  predicate AllWhitespace(s: string) {
    forall k :: 0 <= k < |s| ==> IsWhitespace(s[k])
  }

  /** `TrimStart` drops a whitespace prefix and stops at the first other character. */
  lemma {:induction false} TrimStartDropsPrefix(pre: string, s: string)
    requires AllWhitespace(pre)
    requires s == [] || !IsWhitespace(s[0])
    ensures TrimStart(pre + s) == s
    decreases |pre|
  {
    if pre == [] {
      assert pre + s == s;
    } else {
      assert (pre + s)[0] == pre[0];
      assert (pre + s)[1..] == pre[1..] + s;
      TrimStartDropsPrefix(pre[1..], s);
    }
  }

  /** `TrimEnd` drops a whitespace suffix and stops at the last other character. */
  lemma {:induction false} TrimEndDropsSuffix(s: string, post: string)
    requires AllWhitespace(post)
    requires s == [] || !IsWhitespace(s[|s| - 1])
    ensures TrimEnd(s + post) == s
    decreases |post|
  {
    if post == [] {
      assert s + post == s;
    } else {
      var t := s + post;
      assert t[|t| - 1] == post[|post| - 1];
      assert t[..|t| - 1] == s + post[..|post| - 1];
      TrimEndDropsSuffix(s, post[..|post| - 1]);
    }
  }

  /** Trimming removes exactly the whitespace around a word. */
  lemma TrimPadding(pre: string, w: string, post: string)
    requires AllWhitespace(pre) && AllWhitespace(post)
    requires w != [] && !IsWhitespace(w[0]) && !IsWhitespace(w[|w| - 1])
    ensures Trim(pre + w + post) == w
  {
    assert pre + w + post == pre + (w + post);
    assert (w + post)[0] == w[0];
    TrimStartDropsPrefix(pre, w + post);
    TrimEndDropsSuffix(w, post);
  }

  /** Padding and case do not matter to `sanitizeDeliveryType`. */
  lemma SanitizeDeliveryTypePadded(pre: string, w: string, post: string)
    requires AllWhitespace(pre) && AllWhitespace(post)
    requires w == EXPRESS || w == "EXPRESS"
    ensures SanitizeDeliveryType(Str(pre + w + post)) == Some(EXPRESS)
  {
    TrimPadding(pre, w, post);
    LowerExpress(w);
  }

  /** The location checks printed by the validator demo. */
  lemma LocationExamples()
    ensures ValidateLocation(Object(map["x" := Number(Finite(1)), "y" := Number(Finite(2))])) == Pass
    ensures ValidateLocation(Object(map["x" := Str("a")])) == Fail(NotNumbers)
    ensures ValidateLocation(Null) == Fail(NotAnObject)
    ensures ValidateLocation(Object(map["x" := Number(Finite(10000)), "y" := Number(Finite(-10001))])) == Fail(OutOfRange)
  {
  }
}
