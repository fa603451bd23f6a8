/** The configuration of a gesture recognizer: the seven settings, the partial
    override a component receives as `props.config`, and the shallow merge
    `Object.assign` performs. The module-level default object that every
    recognizer merges into is the class `SharedSwipeConfig`. */
module SwipeConfig {

  datatype Option<T> = None | Some(value: T)

  /** The effective settings (index.js:13-21 names them and their defaults). */
  datatype Config = Config(
    velocityThreshold: real,
    directionalOffsetThreshold: real,
    gestureIsClickThreshold: real,
    enableSwipeUp: bool,
    enableSwipeDown: bool,
    enableSwipeLeft: bool,
    enableSwipeRight: bool)

  /** A caller-supplied override: each field is either present or absent.
      An absent `props.config` is the override with every field absent. */
  datatype Override = Override(
    velocityThreshold: Option<real>,
    directionalOffsetThreshold: Option<real>,
    gestureIsClickThreshold: Option<real>,
    enableSwipeUp: Option<bool>,
    enableSwipeDown: Option<bool>,
    enableSwipeLeft: Option<bool>,
    enableSwipeRight: Option<bool>)

  const NoOverride: Override := Override(None, None, None, None, None, None, None)

  /** The values the module-level object holds when the module is loaded. */
  function Defaults(): (c: Config)
    ensures c.velocityThreshold == 3.0 / 10.0
    ensures c.directionalOffsetThreshold == 70.0
    ensures c.gestureIsClickThreshold == 5.0
    ensures c.enableSwipeUp && c.enableSwipeDown && c.enableSwipeLeft && c.enableSwipeRight
  {
    Config(0.3, 70.0, 5.0, true, true, true, true)
  }

  /** The value a field has after one assignment: the override's if present. */
  function Pick<T>(current: T, o: Option<T>): (v: T) {
    match o
    case Some(v) => v
    case None => current
  }

  /** One `Object.assign(target, override)` on a target holding `c`. */
  function Merge(c: Config, o: Override): (r: Config)
    ensures o.velocityThreshold.Some? ==> r.velocityThreshold == o.velocityThreshold.value
    ensures o.velocityThreshold.None? ==> r.velocityThreshold == c.velocityThreshold
    ensures o.directionalOffsetThreshold.Some? ==> r.directionalOffsetThreshold == o.directionalOffsetThreshold.value
    ensures o.directionalOffsetThreshold.None? ==> r.directionalOffsetThreshold == c.directionalOffsetThreshold
    ensures o.gestureIsClickThreshold.Some? ==> r.gestureIsClickThreshold == o.gestureIsClickThreshold.value
    ensures o.gestureIsClickThreshold.None? ==> r.gestureIsClickThreshold == c.gestureIsClickThreshold
    ensures o.enableSwipeUp.Some? ==> r.enableSwipeUp == o.enableSwipeUp.value
    ensures o.enableSwipeUp.None? ==> r.enableSwipeUp == c.enableSwipeUp
    ensures o.enableSwipeDown.Some? ==> r.enableSwipeDown == o.enableSwipeDown.value
    ensures o.enableSwipeDown.None? ==> r.enableSwipeDown == c.enableSwipeDown
    ensures o.enableSwipeLeft.Some? ==> r.enableSwipeLeft == o.enableSwipeLeft.value
    ensures o.enableSwipeLeft.None? ==> r.enableSwipeLeft == c.enableSwipeLeft
    ensures o.enableSwipeRight.Some? ==> r.enableSwipeRight == o.enableSwipeRight.value
    ensures o.enableSwipeRight.None? ==> r.enableSwipeRight == c.enableSwipeRight
  {
    Config(
      Pick(c.velocityThreshold, o.velocityThreshold),
      Pick(c.directionalOffsetThreshold, o.directionalOffsetThreshold),
      Pick(c.gestureIsClickThreshold, o.gestureIsClickThreshold),
      Pick(c.enableSwipeUp, o.enableSwipeUp),
      Pick(c.enableSwipeDown, o.enableSwipeDown),
      Pick(c.enableSwipeLeft, o.enableSwipeLeft),
      Pick(c.enableSwipeRight, o.enableSwipeRight))
  }

  /** Merging the same override a second time changes nothing. */
  lemma MergeIdempotent(c: Config, o: Override)
    ensures Merge(Merge(c, o), o) == Merge(c, o)
  {
  }

  /** Merging an absent `props.config` leaves the target as it was. */
  lemma MergeNothing(c: Config)
    ensures Merge(c, NoOverride) == c
  {
  }

  /** The state of a target after the overrides `os` were assigned into it,
      in order, starting from `base`. */
  function MergeAll(base: Config, os: seq<Override>): (c: Config)
    decreases |os|
  {
    if os == [] then base else Merge(MergeAll(base, os[..|os| - 1]), os[|os| - 1])
  }

  /** The seven keys of the settings object, and what a key can hold. */
  datatype Key = VelocityThreshold | DirectionalOffsetThreshold | GestureIsClickThreshold
               | EnableSwipeUp | EnableSwipeDown | EnableSwipeLeft | EnableSwipeRight

  datatype Value = Number(n: real) | Flag(b: bool)

  /** The value the settings hold under key `k`. */
  function Get(c: Config, k: Key): (v: Value) {
    match k
    case VelocityThreshold => Number(c.velocityThreshold)
    case DirectionalOffsetThreshold => Number(c.directionalOffsetThreshold)
    case GestureIsClickThreshold => Number(c.gestureIsClickThreshold)
    case EnableSwipeUp => Flag(c.enableSwipeUp)
    case EnableSwipeDown => Flag(c.enableSwipeDown)
    case EnableSwipeLeft => Flag(c.enableSwipeLeft)
    case EnableSwipeRight => Flag(c.enableSwipeRight)
  }

  /** The value an override carries under key `k`, if it carries one. */
  function GetOverride(o: Override, k: Key): (v: Option<Value>) {
    match k
    case VelocityThreshold => if o.velocityThreshold.Some? then Some(Number(o.velocityThreshold.value)) else None
    case DirectionalOffsetThreshold =>
      if o.directionalOffsetThreshold.Some? then Some(Number(o.directionalOffsetThreshold.value)) else None
    case GestureIsClickThreshold =>
      if o.gestureIsClickThreshold.Some? then Some(Number(o.gestureIsClickThreshold.value)) else None
    case EnableSwipeUp => if o.enableSwipeUp.Some? then Some(Flag(o.enableSwipeUp.value)) else None
    case EnableSwipeDown => if o.enableSwipeDown.Some? then Some(Flag(o.enableSwipeDown.value)) else None
    case EnableSwipeLeft => if o.enableSwipeLeft.Some? then Some(Flag(o.enableSwipeLeft.value)) else None
    case EnableSwipeRight => if o.enableSwipeRight.Some? then Some(Flag(o.enableSwipeRight.value)) else None
  }

  /** Key by key, a merge keeps the target's value unless the override carries one. */
  lemma MergeKey(c: Config, o: Override, k: Key)
    ensures Get(Merge(c, o), k) == Pick(Get(c, k), GetOverride(o, k))
  {
  }

  /** After a history of merges in which override `i` is the last one to
      set key `k`, the key holds override `i`'s value: an override persists
      through every later merge that leaves its key absent. */
  lemma {:induction false} LastOverrideWins(base: Config, os: seq<Override>, k: Key, i: nat)
    requires i < |os| && GetOverride(os[i], k).Some?
    requires forall j | i < j < |os| :: GetOverride(os[j], k).None?
    ensures Get(MergeAll(base, os), k) == GetOverride(os[i], k).value
  {
    var prefix, last := os[..|os| - 1], os[|os| - 1];
    MergeKey(MergeAll(base, prefix), last, k);
    if i < |os| - 1 {
      LastOverrideWins(base, prefix, k, i);
    }
  }

  /** After a history of merges none of which set key `k`, the key still
      holds the base value. */
  lemma {:induction false} UnsetKeyKeepsBase(base: Config, os: seq<Override>, k: Key)
    requires forall j | 0 <= j < |os| :: GetOverride(os[j], k).None?
    ensures Get(MergeAll(base, os), k) == Get(base, k)
  {
    if os != [] {
      var prefix, last := os[..|os| - 1], os[|os| - 1];
      MergeKey(MergeAll(base, prefix), last, k);
      UnsetKeyKeepsBase(base, prefix, k);
    }
  }

  /** Repeating the most recent override leaves the shared state unchanged. */
  lemma RepeatedMergeIsIdempotent(base: Config, os: seq<Override>, o: Override)
    ensures MergeAll(base, os + [o, o]) == MergeAll(base, os + [o])
  {
    assert (os + [o, o])[..|os| + 1] == os + [o];
    assert (os + [o])[..|os|] == os;
    MergeIdempotent(MergeAll(base, os), o);
  }

  /** The module-level settings object (index.js:13-21). It is created once,
      holds the defaults, and every `Object.assign(swipeConfig, ...)` of every
      recognizer writes into it in place (index.js:38, 52). */
  class SharedSwipeConfig {
    var velocityThreshold: real
    var directionalOffsetThreshold: real
    var gestureIsClickThreshold: real
    var enableSwipeUp: bool
    var enableSwipeDown: bool
    var enableSwipeLeft: bool
    var enableSwipeRight: bool

    /** Every override assigned into this object since it was created. */
    ghost var merged: seq<Override>

    /** The object always holds the defaults with its whole history merged in. */
    ghost predicate Valid()
      reads this
    {
      Value() == MergeAll(Defaults(), merged)
    }

    /** The settings the object's fields hold now. */
    function Value(): (c: Config)
      reads this
    {
      Config(velocityThreshold, directionalOffsetThreshold, gestureIsClickThreshold,
             enableSwipeUp, enableSwipeDown, enableSwipeLeft, enableSwipeRight)
    }

    /** Module load: the object literal at index.js:13-21. */
    constructor ()
      ensures Valid() && merged == []
      ensures Value() == Defaults()
    {
      velocityThreshold := 0.3;
      directionalOffsetThreshold := 70.0;
      gestureIsClickThreshold := 5.0;
      enableSwipeUp := true;
      enableSwipeDown := true;
      enableSwipeLeft := true;
      enableSwipeRight := true;
      merged := [];
    }

    /** `Object.assign(this, o)`: each present field is written in place. */
    method Assign(o: Override)
      requires Valid()
      modifies this
      ensures Valid()
      ensures merged == old(merged) + [o]
      ensures Value() == Merge(old(Value()), o)
    {
      velocityThreshold := Pick(velocityThreshold, o.velocityThreshold);
      directionalOffsetThreshold := Pick(directionalOffsetThreshold, o.directionalOffsetThreshold);
      gestureIsClickThreshold := Pick(gestureIsClickThreshold, o.gestureIsClickThreshold);
      enableSwipeUp := Pick(enableSwipeUp, o.enableSwipeUp);
      enableSwipeDown := Pick(enableSwipeDown, o.enableSwipeDown);
      enableSwipeLeft := Pick(enableSwipeLeft, o.enableSwipeLeft);
      enableSwipeRight := Pick(enableSwipeRight, o.enableSwipeRight);
      merged := merged + [o];
      assert merged[..|merged| - 1] == old(merged);
    }
  }
}
