# Swipe gesture recognizer — a Dafny model

This project models the decision core of the `GestureRecognizer` component in
react-native-swipe-actions. The component wraps a view and watches one-finger
drags. When a touch starts and each time it moves, it answers the host
whether it claims the gesture. When the gesture ends, it resolves a swipe direction (UP, DOWN, LEFT,
RIGHT or none) from the gesture's displacement and velocity, and then calls the
application's callbacks. Thresholds and per-direction enable flags come from a
settings object. The component merges each caller's `config` prop into that
object.

Three modules:

- `SwipeConfig` (config.dfy) has the settings record `Config` and the partial
  `Override` (each field present or absent). It has the shallow merge `Merge`
  that `Object.assign` performs and `MergeAll`, a history of merges. The class
  `SharedSwipeConfig` is the module-level settings object. It is created once
  with the defaults, and every recognizer writes into it in place. A ghost field
  records every override ever assigned into it.
- `Classify` (classify.dfy) has the pure decision logic. It covers the per-axis
  validity test, the direction resolver, the click test, the enable-flag check,
  the claim predicate, and `SwipeCalls`, the ordered list of callbacks a
  release invokes.
- `Recognizer` (recognizer.dfy) has the class `GestureRecognizer`. Its
  `swipeConfig` field is the shared object itself, not a copy. Its constructor
  and `ComponentDidUpdate` merge overrides into that object. The claim query and
  the release handler are its methods. The release handler appends the
  callbacks it invokes to a `trace`.

Gesture values and thresholds are exact `real`s. A missing callback is a
`false` in `Handlers`. An absent `props.config` is the override with every
field absent.

Three behaviours of index.js that the model keeps as written:

- The click test reads the module-level object (index.js:83). That object holds
  the merged settings, so the click threshold in force is the latest override
  of it. It is not the default.
- The generic `onSwipe` callback is invoked whenever it is present, even when
  no direction was resolved (index.js:108). Its argument is then the null
  direction.
- Overrides are merged into one object shared by every recognizer
  (index.js:38, 52). They are not merged into a fresh per-instance value.
  Settings therefore carry over between instances and between later merges.

## Model

| member | source | states |
|---|---|---|
| `SwipeConfig.Defaults` | index.js:13-21 | velocity threshold 0.3, offset threshold 70, click threshold 5, all four directions enabled |
| `SwipeConfig.Merge` | index.js:38 | every field present in the override takes the override's value; every absent field keeps the target's value |
| `SwipeConfig.MergeIdempotent` | index.js:52 | merging the same override a second time changes nothing |
| `SwipeConfig.MergeNothing` | index.js:38 | merging an absent `config` prop leaves the settings as they were |
| `SwipeConfig.LastOverrideWins` | index.js:38-52 | after any history of merges, a key holds the value of the last override that set it, whatever later overrides that leave it absent do |
| `SwipeConfig.UnsetKeyKeepsBase` | index.js:38-52 | after any history of merges none of which set a key, that key still holds its starting value |
| `SwipeConfig.RepeatedMergeIsIdempotent` | index.js:50-53 | re-merging the latest override leaves the shared settings unchanged |
| `SwipeConfig.SharedSwipeConfig.constructor` | index.js:13-21 | the shared object starts with the defaults and an empty merge history |
| `SwipeConfig.SharedSwipeConfig.Assign` | index.js:38 | writes the override's present fields in place and appends it to the history; the object keeps holding the defaults with its whole history merged in |
| `Classify.IsValidSwipe` | index.js:23-33 | true exactly when the velocity lies strictly outside ±velocityThreshold and the offset lies strictly inside ±directionalOffsetThreshold |
| `Classify.ThresholdIsExclusive` | index.js:29-32 | a velocity or an offset equal in size to its threshold never makes a valid swipe |
| `Classify.IsValidHorizontalSwipe` | index.js:136-140 | horizontal validity tests vx against the velocity threshold and dy against the offset threshold |
| `Classify.IsValidVerticalSwipe` | index.js:142-146 | vertical validity tests vy against the velocity threshold and dx against the offset threshold |
| `Classify.GetSwipeDirection` | index.js:125-134 | RIGHT iff horizontally valid and dx > 0; LEFT iff horizontally valid and dx <= 0; DOWN/UP likewise by dy only when not horizontally valid; none iff neither axis is valid |
| `Classify.HorizontalPriority` | index.js:128-132 | a gesture valid on both axes resolves to LEFT or RIGHT |
| `Classify.DefaultExamples` | index.js:125-134 | with default settings, a clean swipe each way resolves to that way; velocity exactly 0.3 or offset exactly 70 resolves to none |
| `Classify.GestureIsClick` | index.js:81-86 | a click is a displacement strictly inside ±clickThreshold on both axes |
| `Classify.VerifySwipe` | index.js:64-79 | true exactly when the gesture resolves to a direction whose enable flag is set |
| `Classify.VerifySwipeNeedsEnabledDirection` | index.js:64-79 | verification holds iff the resolved direction exists and is enabled, so a disabled direction is never claimed |
| `Classify.ShouldSetPanResponder` | index.js:56-62 | never claims with a touch count other than 1 or for a click, whatever the velocity; a claim implies an enabled resolved direction; one touch, no click and a verified swipe give a claim |
| `Classify.SwipeCalls` | index.js:108-122 | the generic callback comes first iff present, whatever the direction; a direction's own callback is invoked iff it is the resolved direction, enabled and present; nothing else is invoked and nothing twice |
| `Classify.NoDirectionOnlyGeneric` | index.js:108-122 | a release with no direction invokes the generic callback (with the null direction) if present and nothing else |
| `Classify.ClaimedGestureReachesItsHandler` | index.js:88-91 | a claimed gesture released with the same snapshot invokes its direction's callback when that callback is present |
| `Recognizer.GestureRecognizer.constructor` | index.js:36-38 | merges `props.config` into the shared object, records it in the history, and keeps the shared object itself as `swipeConfig` |
| `Recognizer.GestureRecognizer.ComponentDidUpdate` | index.js:50-54 | on a changed `config` prop merges it into the shared object again; otherwise the settings are untouched; callbacks already invoked are kept |
| `Recognizer.GestureRecognizer.HandleShouldSetPanResponder` | index.js:56-62 | the answer is the claim predicate over the current settings; the click threshold it uses is the merged one, because the module-level object and `swipeConfig` are the same object |
| `Recognizer.GestureRecognizer.TriggerSwipeHandlers` | index.js:93-123 | appends exactly the callbacks `SwipeCalls` gives for the direction, current settings and present callbacks, in that order |
| `Recognizer.GestureRecognizer.HandlePanResponderEnd` | index.js:88-91 | resolves the direction from the current settings and appends its callbacks to the trace |
| `Recognizer.TwoRecognizersShareSettings` | index.js:13-38 | two recognizers built on the same module object see identical settings; a field set by the first override and absent from the second keeps the first's value |
| `Recognizer.ClickThresholdIsLatestOverride` | index.js:81-86 | the click threshold in force is the one from the latest override that set it, from whichever recognizer it came |
| `Recognizer.ClickThresholdDefault` | index.js:83-84 | if no override ever set the click threshold, the click test uses 5 |

## Left out

- `render` (index.js:148-150) and the `PanResponder.create` wiring (index.js:40-47): UI-framework plumbing. Release and termination both call the release handler.
- The touch list of the native event: only its length is modelled, as a natural number.
- Callback bodies: they are application code. The model records which callbacks are invoked, in which order and with which arguments. It does not model a callback that changes props or settings while the dispatch is running.
- The identity test of `componentDidUpdate` (index.js:51): it becomes the boolean `configChanged` input.
- Override values of the wrong type, keys other than the seven settings, and keys present with the value `undefined`: `Object.assign` would copy all of them. The model's override carries only well-typed values for the seven known keys.
- JavaScript floating point (NaN, infinities, rounding): values are exact reals.
- The gesture snapshot's other fields (`moveX`, `x0`, `numberActiveTouches`, …): the decision logic never reads them.
