# Push-gesture gate of the hand-tracking haptics loop

The program polls a hand tracker and drives a mid-air haptic emitter. It
places a focal point on each hand that qualifies on a pass: a hand whose palm
velocity along the tracker's z axis is below -90, or whose side (left or
right) is currently held.
A push presses its side. Every later pass for a hand of that side advances
the side's count, and the side releases itself on the pass that takes the
count to 40. Passes for the other hand and frames without hands do not
advance the count, so a held side whose hand has left the view stays held
(`StuckHold`). This project models the
gate that decides, hand by hand, whether the emitter gets a control point
(`emitter.update`) or is stopped (`emitter.stop`). It proves that the gate's
counters stay in range and that a push buys at most 41 updates for its
side, whatever the other hand does and however the passes are split into
polls (`RunAtMostFortyOneUpdatesPerPush`).

`push_gesture.dfy` holds one module, `PushGesture`:

- `GateState` is the loop's four gesture variables: `left_pressed`,
  `right_pressed`, `left_count` and `right_count`. `HoldLimit` is
  `pressed_released_count` (40).
- `Hand` is a tracked hand: its side and a boolean `pushing`. `pushing`
  stands for the palm-velocity test `palmVelocity().z < -90`, in the
  tracker's coordinates.
- `Event` records the emitter calls: `Update(side)` for a control point
  placed on that side's hand, and `Stop`.
- `Step` is one pass of the loop over hands. It runs the qualification test,
  the press/hold chain, the update, the release check and the stop check.
  `Passes` runs the passes for every hand of a frame in order. `Frame` adds
  the empty-frame case. `Frames` runs a finite sequence of polls.
- `Inv` is the invariant on each side: the count lies in 0..40, a held side
  has count below 40, and an unheld side has count 0 or 40. The count is not
  reset on release, so it stays at 40 until the next press.
- The class `GestureGate` holds the four variables as mutable fields.
  `ProcessHand`, `ProcessFrame` and `Run` update them in place as the C++
  loop does. Each is proved to produce exactly the state and event trace of
  `Step`, `Frame` and `Frames`.

Points where the code behaves otherwise than its structure suggests:

- The release check and the stop check run after every hand, inside the
  `for` over hands, not once per frame. A frame of several hands can
  therefore emit several `Stop`s.
- A pass that releases a side while the other side is not held emits its
  `Update` first and then `Stop`: the control point of that pass has already
  been sent when the emitter is stopped. When the other side is held, the
  releasing pass emits only its `Update` (`HeldStepEvents`).
- The press/hold `else if` chain only ever touches the hand's own side,
  because each branch tests that side, so exactly the hand's own side is
  pressed or held (`Register`). The `else if`
  in the release check releases at most one side per pass. This is harmless
  because only the side of the current hand can reach 40 in a pass
  (`StepKeepsOtherSide`, `Inv`).

The C++ `int` counters cannot overflow: `Inv` bounds them by 40. The model
therefore uses unbounded `int` without losing any behaviour.

## Model

| member | source | states |
|---|---|---|
| PushGesture.Init | AmplitudeModulation_HandTracking.cpp:22-23 | The loop starts with neither side pressed, both counts 0, and the invariant holding. |
| PushGesture.Register | AmplitudeModulation_HandTracking.cpp:38-49 | For a qualifying hand, the hand's own side ends pressed. Its count becomes 0 on a fresh press or the old count plus one on a hold. The other side's flag and count are unchanged. |
| PushGesture.Release | AmplitudeModulation_HandTracking.cpp:80-83 | Counts are unchanged and no flag is set. A side is released only if it was held at exactly 40. At most one side is released. A left side at 40 is always released, and a right side at 40 is released unless the left side is also at 40. |
| PushGesture.Step | AmplitudeModulation_HandTracking.cpp:35-85 | One pass emits an update for the hand's own side iff the hand pushes or its side is held, and never for the other side. It emits a stop iff both sides are unpressed at the end of the pass, after any update. It emits at most one of each. It preserves the invariant. |
| PushGesture.StepPresses | AmplitudeModulation_HandTracking.cpp:38-47 | A pushing hand whose side is not held presses that side with count 0. The pass emits exactly one update and no stop. |
| PushGesture.StepHolds | AmplitudeModulation_HandTracking.cpp:42-83 | Under the invariant, a hand of a held side bumps its count by one whether or not it pushes, so a new push does not reset the count. The side stays held iff the new count is below 40. |
| PushGesture.HeldStepEvents | AmplitudeModulation_HandTracking.cpp:78-85 | A hold pass emits its update. It also emits a stop exactly when it releases the side while the other side is idle. |
| PushGesture.StepIgnores | AmplitudeModulation_HandTracking.cpp:35 | Under the invariant, a hand that neither pushes nor belongs to a held side leaves all four variables unchanged and gets no update. |
| PushGesture.StepKeepsOtherSide | AmplitudeModulation_HandTracking.cpp:38-83 | Under the invariant, a hand never changes the other side's flag or count, even though the release check examines both sides. |
| PushGesture.StepUpdateCount | AmplitudeModulation_HandTracking.cpp:35-78 | A pass gives exactly one update to a side iff the hand is of that side and qualifies, and none otherwise. |
| PushGesture.Passes | AmplitudeModulation_HandTracking.cpp:34-86 | Processing the hands of a frame in order preserves the invariant and emits at most two events per hand. |
| PushGesture.Frame | AmplitudeModulation_HandTracking.cpp:31-86 | A frame with no hands emits exactly one stop and no update, and leaves the state unchanged. Every frame preserves the invariant. |
| PushGesture.Frames | AmplitudeModulation_HandTracking.cpp:26-90 | Every finite run of polls preserves the invariant. |
| PushGesture.PassesSnoc | AmplitudeModulation_HandTracking.cpp:34 | The hands are processed in order: one more hand adds one pass after the others. |
| PushGesture.FramesSnoc | AmplitudeModulation_HandTracking.cpp:26 | The polls are processed in order: one more frame adds one poll after the others. |
| PushGesture.OtherSideUntouched | AmplitudeModulation_HandTracking.cpp:38-83 | Any number of hands of one side leave the other side's flag and count unchanged. |
| PushGesture.HoldCountsUp | AmplitudeModulation_HandTracking.cpp:42-83 | From a held side with count k, n hands of that side, with n at most 40 - k, give n updates and raise the count to k + n. The side stays held exactly while k + n is below 40. |
| PushGesture.HoldTrace | AmplitudeModulation_HandTracking.cpp:78-85 | With the other side idle, a hold that stays below the limit emits only its updates and no stop. |
| PushGesture.NoPushBound | AmplitudeModulation_HandTracking.cpp:34-83 | Without a new push on a side, that side gets at most 40 - count further updates if it is held, and none if it is not, whatever hands of the other side are interleaved. Each update uses up one of the hold's remaining passes. |
| PushGesture.FrameNoPushBound | AmplitudeModulation_HandTracking.cpp:31-86 | One poll without a push on a side uses up at least as many of the hold's remaining passes as it gives that side updates; a poll without hands gives none. |
| PushGesture.FramesNoPushBound | AmplitudeModulation_HandTracking.cpp:26-90 | A run of polls without a push on a side gives that side at most as many updates as its hold has passes left, however the hands are split into polls. |
| PushGesture.AtMostFortyOneUpdatesPerPush | AmplitudeModulation_HandTracking.cpp:24-83 | One push followed by any hands without a further push on that side yields at most 41 updates for that side; hands of the other side may push or not. |
| PushGesture.RunAtMostFortyOneUpdatesPerPush | AmplitudeModulation_HandTracking.cpp:24-90 | Over a run of polls, from the pass of a push on a side to the end, with no further push on that side in any poll, that side gets at most 41 updates; the other hand may appear in any poll. |
| PushGesture.StuckHold | AmplitudeModulation_HandTracking.cpp:35-85 | With one side held and the other idle, any number of non-pushing hands of the other side leave the state unchanged and emit nothing: the held side is never released and the emitter is neither updated nor stopped. |
| PushGesture.PressHoldRelease | AmplitudeModulation_HandTracking.cpp:24-83 | A press followed by 40 more hands of that side keeps the side held through the first 40 passes. The 41st pass releases it, after exactly 41 updates. |
| PushGesture.SingletonFrames | AmplitudeModulation_HandTracking.cpp:31-86 | A run of one-hand frames has the same state and events as one frame holding all those hands. |
| PushGesture.PressAndHold | AmplitudeModulation_HandTracking.cpp:35-85 | With both sides idle, a push and up to 39 more hands of that side emit one update per hand and no stop. The side stays held with count equal to the number of holds. |
| PushGesture.PushFromIdle | AmplitudeModulation_HandTracking.cpp:35-85 | With both sides idle, a push and 40 more hands of that side emit 41 updates and then one stop. The side ends released with count 40, and the other side is unchanged. |
| PushGesture.PushScenario | AmplitudeModulation_HandTracking.cpp:22-86 | From start-up, a frame without hands, a pushing frame and 40 more one-hand frames emit a stop, 41 updates and then a stop. The side ends released and the other side untouched. |
| PushGesture.GestureGate.constructor | AmplitudeModulation_HandTracking.cpp:22-23 | The fields start in the initial state and satisfy the invariant. |
| PushGesture.GestureGate.ProcessHand | AmplitudeModulation_HandTracking.cpp:35-85 | The in-place update of the four variables for one hand yields exactly the state and events of `Step` and keeps the invariant. |
| PushGesture.GestureGate.ProcessFrame | AmplitudeModulation_HandTracking.cpp:31-86 | The loop over a frame's hands yields exactly the state and events of `Frame` and keeps the invariant. |
| PushGesture.GestureGate.Run | AmplitudeModulation_HandTracking.cpp:26-90 | The polling loop over a finite sequence of frames yields exactly the state and events of `Frames` and keeps the invariant. |

## Left out

- Tracker and emitter SDK objects (`Leap::Controller`, the frame and hand
  lists, `Emitter`, `Alignment`): foreign libraries. A frame is a `seq<Hand>`,
  and the emitter calls are recorded as `Event`s.
- The velocity test `palmVelocity().z < -90`: floating point from the
  tracker. Each hand carries it as the boolean `pushing`.
- Palm geometry (normal negation, tracking-to-device transforms, `normalize`,
  `cross`, the 2 cm offset) and the control point's position, intensity and
  frequency: floating point and library-defined units. An `Update` names only
  the side of the hand it is for. The unguarded degenerate cross product and
  the second multiplication by `Units::hertz` in the frequency are not
  modelled either.
- The `while (true)` loop and the 10 ms sleep: non-termination and timing.
  `Run` and `Frames` process a finite sequence of frames.
- Leap hands are always exactly left or right. `Side` has exactly those two
  values, so a hand that is neither cannot be expressed.
