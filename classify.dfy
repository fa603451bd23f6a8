/** The swipe classifier: the per-axis validity test, the direction a gesture
    resolves to, whether a recognizer claims a gesture, and which callbacks a
    release invokes. Everything here reads one gesture snapshot and one
    settings value; none of it changes state. */
module Classify {
  import opened SwipeConfig

  /** The four values of `swipeDirections` (index.js:6-11); a resolution
      that finds no swipe is `None` (index.js's `null`). */
  datatype Direction = SwipeUp | SwipeDown | SwipeLeft | SwipeRight

  /** The part of the host's gesture snapshot the classifier reads:
      accumulated displacement and velocity on each axis. */
  datatype GestureState = GestureState(dx: real, dy: real, vx: real, vy: real)

  function Abs(x: real): (a: real) {
    if x < 0.0 then -x else x
  }

  /** A movement along one axis is a swipe when it is fast enough along that
      axis and stays close enough to it on the other. Both comparisons are
      strict, so a value equal to either threshold is no swipe. */
  predicate IsValidSwipe(velocity: real, velocityThreshold: real,
                         directionalOffset: real, directionalOffsetThreshold: real)
    ensures IsValidSwipe(velocity, velocityThreshold, directionalOffset, directionalOffsetThreshold) <==>
      (velocity > velocityThreshold || velocity < -velocityThreshold) &&
      -directionalOffsetThreshold < directionalOffset < directionalOffsetThreshold
  {
    Abs(velocity) > velocityThreshold && Abs(directionalOffset) < directionalOffsetThreshold
  }

  /** A velocity or an offset exactly at its threshold never passes. */
  lemma ThresholdIsExclusive(velocity: real, velocityThreshold: real,
                             directionalOffset: real, directionalOffsetThreshold: real)
    requires Abs(velocity) == velocityThreshold || Abs(directionalOffset) == directionalOffsetThreshold
    ensures !IsValidSwipe(velocity, velocityThreshold, directionalOffset, directionalOffsetThreshold)
  {
  }

  /** Horizontal: fast along x, straight in y. */
  predicate IsValidHorizontalSwipe(g: GestureState, c: Config)
    ensures IsValidHorizontalSwipe(g, c) <==>
      (g.vx > c.velocityThreshold || g.vx < -c.velocityThreshold) &&
      -c.directionalOffsetThreshold < g.dy < c.directionalOffsetThreshold
  {
    IsValidSwipe(g.vx, c.velocityThreshold, g.dy, c.directionalOffsetThreshold)
  }

  /** Vertical: fast along y, straight in x. */
  predicate IsValidVerticalSwipe(g: GestureState, c: Config)
    ensures IsValidVerticalSwipe(g, c) <==>
      (g.vy > c.velocityThreshold || g.vy < -c.velocityThreshold) &&
      -c.directionalOffsetThreshold < g.dx < c.directionalOffsetThreshold
  {
    IsValidSwipe(g.vy, c.velocityThreshold, g.dx, c.directionalOffsetThreshold)
  }

  /** The direction a gesture resolves to. The horizontal test is made first
      and wins whenever it passes; the sign of the displacement picks the
      side, with zero going to LEFT or UP. */
  function GetSwipeDirection(g: GestureState, c: Config): (r: Option<Direction>)
    ensures r == Some(SwipeRight) <==> IsValidHorizontalSwipe(g, c) && g.dx > 0.0
    ensures r == Some(SwipeLeft) <==> IsValidHorizontalSwipe(g, c) && g.dx <= 0.0
    ensures r == Some(SwipeDown) <==>
      !IsValidHorizontalSwipe(g, c) && IsValidVerticalSwipe(g, c) && g.dy > 0.0
    ensures r == Some(SwipeUp) <==>
      !IsValidHorizontalSwipe(g, c) && IsValidVerticalSwipe(g, c) && g.dy <= 0.0
    ensures r == None <==> !IsValidHorizontalSwipe(g, c) && !IsValidVerticalSwipe(g, c)
  {
    if IsValidHorizontalSwipe(g, c) then
      if g.dx > 0.0 then Some(SwipeRight) else Some(SwipeLeft)
    else if IsValidVerticalSwipe(g, c) then
      if g.dy > 0.0 then Some(SwipeDown) else Some(SwipeUp)
    else
      None
  }

  /** A gesture valid on both axes is horizontal. */
  lemma HorizontalPriority(g: GestureState, c: Config)
    requires IsValidHorizontalSwipe(g, c) && IsValidVerticalSwipe(g, c)
    ensures GetSwipeDirection(g, c) in {Some(SwipeLeft), Some(SwipeRight)}
  {
  }

  /** The enable flag a direction is gated by. */
  function Enabled(c: Config, d: Direction): (b: bool) {
    match d
    case SwipeUp => c.enableSwipeUp
    case SwipeDown => c.enableSwipeDown
    case SwipeLeft => c.enableSwipeLeft
    case SwipeRight => c.enableSwipeRight
  }

  /** A gesture is a click when it moved less than the click threshold on
      both axes. The threshold is passed separately: `_gestureIsClick` reads
      it from the module-level settings object, not from the recognizer's. */
  predicate GestureIsClick(g: GestureState, clickThreshold: real)
    ensures GestureIsClick(g, clickThreshold) <==>
      -clickThreshold < g.dx < clickThreshold && -clickThreshold < g.dy < clickThreshold
  {
    Abs(g.dx) < clickThreshold && Abs(g.dy) < clickThreshold
  }

  /** A gesture passes verification when it resolves to a direction whose
      enable flag is set. */
  predicate VerifySwipe(g: GestureState, c: Config)
    ensures VerifySwipe(g, c) <==>
      (IsValidHorizontalSwipe(g, c) && (if g.dx > 0.0 then c.enableSwipeRight else c.enableSwipeLeft)) ||
      (!IsValidHorizontalSwipe(g, c) && IsValidVerticalSwipe(g, c) &&
       (if g.dy > 0.0 then c.enableSwipeDown else c.enableSwipeUp))
  {
    var d := GetSwipeDirection(g, c);
    (d == Some(SwipeUp) && c.enableSwipeUp) ||
    (d == Some(SwipeDown) && c.enableSwipeDown) ||
    (d == Some(SwipeLeft) && c.enableSwipeLeft) ||
    (d == Some(SwipeRight) && c.enableSwipeRight)
  }

  /** A gesture resolving to a disabled direction, or to none, fails verification. */
  lemma VerifySwipeNeedsEnabledDirection(g: GestureState, c: Config)
    ensures VerifySwipe(g, c) <==>
      GetSwipeDirection(g, c).Some? && Enabled(c, GetSwipeDirection(g, c).value)
  {
  }

  /** Whether the recognizer claims the gesture: exactly one touch, not a
      click, and a verified swipe. */
  predicate ShouldSetPanResponder(touches: nat, g: GestureState, c: Config, clickThreshold: real)
    ensures ShouldSetPanResponder(touches, g, c, clickThreshold) ==>
      touches == 1 && GetSwipeDirection(g, c).Some? && Enabled(c, GetSwipeDirection(g, c).value)
    ensures touches != 1 ==> !ShouldSetPanResponder(touches, g, c, clickThreshold)
    ensures Abs(g.dx) < clickThreshold && Abs(g.dy) < clickThreshold ==>
      !ShouldSetPanResponder(touches, g, c, clickThreshold)
    ensures touches == 1 && !GestureIsClick(g, clickThreshold) && VerifySwipe(g, c) ==>
      ShouldSetPanResponder(touches, g, c, clickThreshold)
  {
    touches == 1 && !GestureIsClick(g, clickThreshold) && VerifySwipe(g, c)
  }

  /** Which of the component's optional callbacks are present. */
  datatype Handlers = Handlers(
    onSwipe: bool, onSwipeUp: bool, onSwipeDown: bool, onSwipeLeft: bool, onSwipeRight: bool)

  /** Whether the direction-specific callback for `d` is present. */
  function HasHandler(h: Handlers, d: Direction): (b: bool) {
    match d
    case SwipeUp => h.onSwipeUp
    case SwipeDown => h.onSwipeDown
    case SwipeLeft => h.onSwipeLeft
    case SwipeRight => h.onSwipeRight
  }

  /** One callback invocation, with its arguments. */
  datatype Call =
    | OnSwipe(direction: Option<Direction>, state: GestureState)
    | OnSwipeUp(state: GestureState)
    | OnSwipeDown(state: GestureState)
    | OnSwipeLeft(state: GestureState)
    | OnSwipeRight(state: GestureState)

  /** The invocation of the direction-specific callback for `d`. */
  function DirectionCall(d: Direction, g: GestureState): (call: Call) {
    match d
    case SwipeUp => OnSwipeUp(g)
    case SwipeDown => OnSwipeDown(g)
    case SwipeLeft => OnSwipeLeft(g)
    case SwipeRight => OnSwipeRight(g)
  }

  /** The callbacks a release invokes, in order. The generic callback comes
      first whenever it is present, whatever the direction and whatever the
      enable flags say; then at most one direction-specific callback, the
      one for the resolved direction, when it is enabled and present. */
  function SwipeCalls(dir: Option<Direction>, g: GestureState, c: Config, h: Handlers): (calls: seq<Call>)
    ensures h.onSwipe <==> |calls| > 0 && calls[0] == OnSwipe(dir, g)
    ensures forall d: Direction ::
      DirectionCall(d, g) in calls <==> dir == Some(d) && Enabled(c, d) && HasHandler(h, d)
    ensures forall i | 0 <= i < |calls| ::
      calls[i] == OnSwipe(dir, g) || (dir.Some? && calls[i] == DirectionCall(dir.value, g))
    ensures |calls| == (if h.onSwipe then 1 else 0) +
      (if dir.Some? && Enabled(c, dir.value) && HasHandler(h, dir.value) then 1 else 0)
  {
    var generic := if h.onSwipe then [OnSwipe(dir, g)] else [];
    match dir
    case None => generic
    case Some(SwipeUp) => if c.enableSwipeUp && h.onSwipeUp then generic + [OnSwipeUp(g)] else generic
    case Some(SwipeDown) => if c.enableSwipeDown && h.onSwipeDown then generic + [OnSwipeDown(g)] else generic
    case Some(SwipeLeft) => if c.enableSwipeLeft && h.onSwipeLeft then generic + [OnSwipeLeft(g)] else generic
    case Some(SwipeRight) => if c.enableSwipeRight && h.onSwipeRight then generic + [OnSwipeRight(g)] else generic
  }

  /** A release that resolves to no direction invokes only the generic
      callback, and only when it is present. */
  lemma NoDirectionOnlyGeneric(g: GestureState, c: Config, h: Handlers)
    ensures SwipeCalls(None, g, c, h) == if h.onSwipe then [OnSwipe(None, g)] else []
  {
  }

  /** A gesture that was claimed and is released unchanged invokes the
      specific callback of its direction, when that callback is present. */
  lemma ClaimedGestureReachesItsHandler(g: GestureState, c: Config, h: Handlers)
    requires ShouldSetPanResponder(1, g, c, c.gestureIsClickThreshold)
    requires HasHandler(h, GetSwipeDirection(g, c).value)
    ensures DirectionCall(GetSwipeDirection(g, c).value, g) in SwipeCalls(GetSwipeDirection(g, c), g, c, h)
  {
  }

  /** The worked examples: default settings, one clean swipe each way, and
      the two boundary cases. */
  lemma DefaultExamples()
    ensures GetSwipeDirection(GestureState(100.0, 0.0, 1.0, 0.0), Defaults()) == Some(SwipeRight)
    ensures GetSwipeDirection(GestureState(-100.0, 0.0, -1.0, 0.0), Defaults()) == Some(SwipeLeft)
    ensures GetSwipeDirection(GestureState(0.0, 100.0, 0.0, 1.0), Defaults()) == Some(SwipeDown)
    ensures GetSwipeDirection(GestureState(0.0, -100.0, 0.0, -1.0), Defaults()) == Some(SwipeUp)
    ensures GetSwipeDirection(GestureState(100.0, 0.0, 0.3, 0.0), Defaults()) == None
    ensures GetSwipeDirection(GestureState(100.0, 70.0, 1.0, 0.0), Defaults()) == None
  {
  }
}
