/** The gesture recognizer component: the state it keeps (its props, the
    reference `this.swipeConfig`, and the callbacks it has invoked so far)
    and the three entry points the host calls: the claim query, the release
    handler and the configuration update. */
module Recognizer {
  import opened SwipeConfig
  import opened Classify

  /** The props the recognizer reads: the override and the callbacks. */
  datatype Props = Props(config: Override, handlers: Handlers)

  class GestureRecognizer {
    /** The module-level binding `swipeConfig`, shared by every recognizer. */
    const moduleConfig: SharedSwipeConfig
    /** `this.swipeConfig`: always the shared object itself, never a copy. */
    var swipeConfig: SharedSwipeConfig
    var props: Props
    /** The callbacks invoked so far, oldest first. */
    var trace: seq<Call>

    ghost predicate Valid()
      reads this, moduleConfig
    {
      swipeConfig == moduleConfig && moduleConfig.Valid()
    }

    /** The settings `this.swipeConfig` holds now. */
    function Current(): (c: Config)
      reads this, swipeConfig
    {
      swipeConfig.Value()
    }

    /** The constructor merges `props.config` into the shared object and
        keeps a reference to that same object. */
    constructor (shared: SharedSwipeConfig, props: Props)
      requires shared.Valid()
      modifies shared
      ensures Valid() && moduleConfig == shared
      ensures shared.merged == old(shared.merged) + [props.config]
      ensures Current() == Merge(old(shared.Value()), props.config)
      ensures this.props == props && trace == []
    {
      shared.Assign(props.config);
      moduleConfig := shared;
      swipeConfig := shared;
      this.props := props;
      trace := [];
    }

    /** React installs `nextProps` as `this.props` and then runs the update
        hook; `configChanged` is the hook's identity test on `props.config`.
        A change merges the new override into the shared object again. */
    method ComponentDidUpdate(nextProps: Props, configChanged: bool)
      requires Valid()
      modifies this, moduleConfig
      ensures Valid() && props == nextProps && trace == old(trace)
      ensures moduleConfig.merged ==
        if configChanged then old(moduleConfig.merged) + [nextProps.config] else old(moduleConfig.merged)
      ensures Current() ==
        if configChanged then Merge(old(Current()), nextProps.config) else old(Current())
    {
      props := nextProps;
      if configChanged {
        moduleConfig.Assign(props.config);
        swipeConfig := moduleConfig;
      }
    }

    /** The claim query. The click test reads the module-level object and
        every other test reads `this.swipeConfig`; since both are the same
        object, the click threshold used is the merged one. */
    method HandleShouldSetPanResponder(touches: nat, g: GestureState) returns (claim: bool)
      requires Valid()
      ensures claim == ShouldSetPanResponder(touches, g, Current(), moduleConfig.gestureIsClickThreshold)
      ensures claim == ShouldSetPanResponder(touches, g, Current(), Current().gestureIsClickThreshold)
      ensures claim ==> touches == 1 && Enabled(Current(), GetSwipeDirection(g, Current()).value)
    {
      var c := swipeConfig.Value();
      claim := touches == 1 && !GestureIsClick(g, moduleConfig.gestureIsClickThreshold) && VerifySwipe(g, c);
    }

    /** Invokes the callbacks for a resolved direction: the generic one
        first, then the direction's own when enabled and present. */
    method TriggerSwipeHandlers(dir: Option<Direction>, g: GestureState)
      requires Valid()
      modifies this`trace
      ensures trace == old(trace) + SwipeCalls(dir, g, Current(), props.handlers)
    {
      var h := props.handlers;
      var c := swipeConfig.Value();
      if h.onSwipe {
        trace := trace + [OnSwipe(dir, g)];
      }
      match dir {
        case None =>
        case Some(SwipeUp) =>
          if c.enableSwipeUp && h.onSwipeUp { trace := trace + [OnSwipeUp(g)]; }
        case Some(SwipeDown) =>
          if c.enableSwipeDown && h.onSwipeDown { trace := trace + [OnSwipeDown(g)]; }
        case Some(SwipeLeft) =>
          if c.enableSwipeLeft && h.onSwipeLeft { trace := trace + [OnSwipeLeft(g)]; }
        case Some(SwipeRight) =>
          if c.enableSwipeRight && h.onSwipeRight { trace := trace + [OnSwipeRight(g)]; }
      }
    }

    /** Release and termination: resolve the direction, then dispatch. */
    method HandlePanResponderEnd(g: GestureState)
      requires Valid()
      modifies this`trace
      ensures trace == old(trace) + SwipeCalls(GetSwipeDirection(g, Current()), g, Current(), props.handlers)
    {
      var dir := GetSwipeDirection(g, swipeConfig.Value());
      TriggerSwipeHandlers(dir, g);
    }
  }

  /** A second recognizer merges into the object the first one already
      changed: afterwards both see the same settings, and a field the first
      override set and the second left absent keeps the first one's value. */
  method TwoRecognizersShareSettings(shared: SharedSwipeConfig, p1: Props, p2: Props)
    returns (r1: GestureRecognizer, r2: GestureRecognizer)
    requires shared.Valid()
    modifies shared
    ensures r1.Valid() && r2.Valid()
    ensures r1.Current() == r2.Current() == Merge(Merge(old(shared.Value()), p1.config), p2.config)
    ensures p1.config.velocityThreshold.Some? && p2.config.velocityThreshold.None? ==>
      r2.Current().velocityThreshold == p1.config.velocityThreshold.value
  {
    r1 := new GestureRecognizer(shared, p1);
    r2 := new GestureRecognizer(shared, p2);
  }

  /** The click threshold a recognizer tests against is whatever the most
      recent override setting it wrote into the shared object, whichever
      recognizer that override came from. */
  lemma ClickThresholdIsLatestOverride(r: GestureRecognizer, i: nat)
    requires r.Valid()
    requires i < |r.moduleConfig.merged|
    requires r.moduleConfig.merged[i].gestureIsClickThreshold.Some?
    requires forall j | i < j < |r.moduleConfig.merged| :: r.moduleConfig.merged[j].gestureIsClickThreshold.None?
    ensures r.moduleConfig.gestureIsClickThreshold == r.moduleConfig.merged[i].gestureIsClickThreshold.value
    ensures r.Current().gestureIsClickThreshold == r.moduleConfig.merged[i].gestureIsClickThreshold.value
  {
    var os := r.moduleConfig.merged;
    assert forall j | i < j < |os| :: GetOverride(os[j], GestureIsClickThreshold).None?;
    LastOverrideWins(Defaults(), os, GestureIsClickThreshold, i);
  }

  /** When no override ever set the click threshold, it is the default 5. */
  lemma ClickThresholdDefault(r: GestureRecognizer)
    requires r.Valid()
    requires forall j | 0 <= j < |r.moduleConfig.merged| :: r.moduleConfig.merged[j].gestureIsClickThreshold.None?
    ensures r.Current().gestureIsClickThreshold == 5.0
  {
    var os := r.moduleConfig.merged;
    assert forall j | 0 <= j < |os| :: GetOverride(os[j], GestureIsClickThreshold).None?;
    UnsetKeyKeepsBase(Defaults(), os, GestureIsClickThreshold);
  }
}
