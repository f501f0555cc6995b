# Redirected-walking manager and steer-to strategies, in Dafny

This project models two parts of a redirected-walking simulator:

- **`RedirectionManager`** runs the per-frame loop. It:
  - advances the simulated clock;
  - captures the user's head state and computes the frame delta;
  - runs a backup out-of-bounds check that can force a reset;
  - dispatches to either the resetter or the redirector;
  - snapshots the user state for the next frame and places the body.

  It also owns the `inReset` flag, which `OnResetTrigger` and `OnResetEnd` set and clear, and it swaps strategies at run time.
- **The steer-to-center (S2C) and steer-to-target (S2T) strategies.** Each frame they pick the target to steer the user toward.
  - When the user faces away from the tracked space, they substitute a temporary target. "Faces away" means a bearing of at least 160 degrees.
  - The temporary target is created once, reused unchanged while needed, and destroyed once the bearing drops.

Modules:

- `Wrappers` holds `Option`.
- `Geometry` holds vectors and transforms. The angle, flattening and frame-change helpers are a record of functions passed in as a parameter, so every result holds whatever they compute.
- `Orchestration` gives the manager's operations as functions on a `ManagerState` value:
  - each returns the new state and the collaborator calls it made, in order;
  - the lemmas about sequences of frames, reset notifications and strategy swaps live here.
- `Manager` holds `class RedirectionManager`:
  - its fields are updated in place;
  - its methods are proved to produce exactly the state and calls of the `Orchestration` functions;
  - a ghost call log records every collaborator call.
- `SteerTo` holds the temporary-target hysteresis both strategies share, and its lemmas over any sequence of frames.
- `S2C` and `S2T` each hold the strategy's target choice as a function and its class, `S2CRedirector` and `S2TargetRedirector`. The class's `PickRedirectionTarget` updates `noTmpTarget`, `tmpTarget` and `currentTarget` in place. Its invariant says two things:
  - the flag agrees with the live temporary target;
  - the targets created and destroyed so far alternate properly.

What the collaborators answer is an input of the call that asks. This covers `IsUserOutOfBounds` and `IsResetRequired`. Where a collaborator may move the user (`InitializeReset`, `ApplyResetting`, `ApplyRedirection`), the scene the engine reports afterwards is also an input.

## Model

| member | source | states |
|---|---|---|
| Orchestration.Start | Assets/Scripts/Redirection/RedirectionManager.cs:116-127 | The reset trigger and the resetter are initialized iff present, trigger first. The clock is reset to 0. The previous user state is the snapshot of the head. Nothing else changes. |
| Manager.RedirectionManager.Start | Assets/Scripts/Redirection/RedirectionManager.cs:116-127 | The class's `Start` leaves exactly the state and calls of `Orchestration.Start`. |
| Manager.RedirectionManager.constructor | Assets/Scripts/Redirection/RedirectionManager.cs:73-94 | The fields start at their declared defaults: not in reset, clock 0, zero vectors, no waypoint, empty call log. |
| Orchestration.ResetTriggerCalls | Assets/Scripts/Redirection/RedirectionManager.cs:295-305 | During a reset, or without a resetter, no collaborator is called. Otherwise `IsResetRequired` is asked first. `InitializeReset` is called exactly once iff the reset is required, and then it is the last call. |
| Orchestration.OnResetTrigger | Assets/Scripts/Redirection/RedirectionManager.cs:295-305 | `inReset` becomes true iff it was true, or there is a resetter and it requires a reset. Nothing else changes. The calls are `ResetTriggerCalls`. |
| Orchestration.TriggerKeepsResetProtocol | Assets/Scripts/Redirection/RedirectionManager.cs:295-305 | Replaying the trigger's calls against the flag never initializes a reset twice. The replay ends with the new `inReset`. |
| Orchestration.TriggersInitializeAtMostOnce | Assets/Scripts/Redirection/RedirectionManager.cs:295-305 | Any run of reset notifications initializes at most one reset. It is initialized iff the flag went from false to true, which happens iff some notification found the reset required with a resetter present. Only the flag changes. |
| Manager.RedirectionManager.OnResetTrigger | Assets/Scripts/Redirection/RedirectionManager.cs:295-305 | The method leaves exactly the state and calls of `Orchestration.OnResetTrigger`. |
| Orchestration.OnResetEnd | Assets/Scripts/Redirection/RedirectionManager.cs:307-311 | With a resetter, `FinalizeReset` is called once and `inReset` becomes false, whatever it was. Without one, the call fails before changing anything. |
| Manager.RedirectionManager.OnResetEnd | Assets/Scripts/Redirection/RedirectionManager.cs:307-311 | The method reports the null-resetter failure iff there is no resetter. In that case nothing changes; otherwise it matches `Orchestration.OnResetEnd`. |
| Orchestration.CaptureFrame | Assets/Scripts/Redirection/RedirectionManager.cs:136-139 | The clock advances by exactly `1/targetFPS`. The current state is the head's snapshot. The delta runs from the previous snapshot to this capture. Nothing else changes. |
| Manager.RedirectionManager.CaptureFrameState | Assets/Scripts/Redirection/RedirectionManager.cs:136-139 | The in-place clock, capture and delta steps equal `Orchestration.CaptureFrame`. |
| Manager.RedirectionManager.UpdateCurrentUserState | Assets/Scripts/Redirection/RedirectionManager.cs:273-279 | The four current-state fields become the head's snapshot, and only they change. |
| Manager.RedirectionManager.UpdatePreviousUserState | Assets/Scripts/Redirection/RedirectionManager.cs:281-287 | The four previous-state fields become the head's snapshot, and only they change. |
| Manager.RedirectionManager.CalculateStateChanges | Assets/Scripts/Redirection/RedirectionManager.cs:289-293 | `deltaPos = currPos - prevPos` and `deltaDir` is the signed angle from `prevDir` to `currDir`. Only these two fields change. |
| Orchestration.BackupCalls | Assets/Scripts/Redirection/RedirectionManager.cs:141-146 | `IsUserOutOfBounds` is asked once iff there is a resetter and no reset is under way. A reset is initialized iff the user is also out of bounds and the reset is required. No strategy is applied here. The reset protocol is kept. |
| Manager.RedirectionManager.BackupCheck | Assets/Scripts/Redirection/RedirectionManager.cs:141-146 | The backup sets `inReset` as `InResetAfterBackup` says and appends `BackupCalls`. It reports exactly whether it initialized a reset. |
| Orchestration.DispatchCalls | Assets/Scripts/Redirection/RedirectionManager.cs:148-151 | `ApplyResetting` runs iff a reset is under way and there is a resetter. Otherwise `ApplyRedirection` runs iff there is a redirector. At most one call is made, and a reset is never initialized or finalized here. |
| Manager.RedirectionManager.Dispatch | Assets/Scripts/Redirection/RedirectionManager.cs:148-151 | The method appends `DispatchCalls` and reports whether a strategy was applied. |
| Orchestration.FrameCalls | Assets/Scripts/Redirection/RedirectionManager.cs:141-151 | Per frame, `IsUserOutOfBounds` is asked and `InitializeReset` is called exactly as the backup decides. `ApplyResetting` runs once iff a reset is under way after the backup and a resetter exists; otherwise `ApplyRedirection` runs once iff a redirector exists. Whichever strategy is applied is the frame's last call. No reset is finalized. |
| Orchestration.FrameKeepsResetProtocol | Assets/Scripts/Redirection/RedirectionManager.cs:141-151 | A frame's calls never initialize a reset during a reset, and apply the resetter only inside one. The flag ends where the backup left it. |
| Orchestration.LateUpdate | Assets/Scripts/Redirection/RedirectionManager.cs:134-155 | A frame's calls are `FrameCalls` and the clock advances by `1/targetFPS`. The delta spans from the previous frame's snapshot to this frame's capture. The snapshot and body position are taken after the strategies ran, so they equal the capture when no strategy ran. `inReset` follows the backup, and the strategy handles are untouched. |
| Manager.RedirectionManager.LateUpdate | Assets/Scripts/Redirection/RedirectionManager.cs:134-155 | The in-place frame leaves exactly the state and calls of `Orchestration.LateUpdate`. |
| Manager.RedirectionManager.SnapshotFrameState | Assets/Scripts/Redirection/RedirectionManager.cs:153-154 | The previous state and the body position are taken from the given scene. Nothing else changes. |
| Manager.RedirectionManager.UpdateBodyPose | Assets/Scripts/Redirection/RedirectionManager.cs:173-177 | The body position is the flattened head position. Nothing else in the state changes. |
| Orchestration.ClockCountsFrames | Assets/Scripts/Redirection/RedirectionManager.cs:134-136 | Over any sequence of events, the simulated clock advances by exactly `1/targetFPS` per frame. Nothing else moves it. |
| Orchestration.ElapsedIsProduct | Assets/Scripts/Redirection/RedirectionManager.cs:136 | Adding one frame time per frame, as the clock does, gives the number of frames times the frame time. |
| Orchestration.ManualTimeCountsFrames | Assets/Scripts/Redirection/RedirectionManager.cs:157-171 | With manual time, after `Start` and any events, `GetTime` is one `GetDeltaTime` added per frame, whatever the engine's clocks say. With `ElapsedIsProduct`, that is the number of frames times `GetDeltaTime`. |
| Orchestration.Time | Assets/Scripts/Redirection/RedirectionManager.cs:165-171 | With manual time the result is the simulated clock and the engine's clock is ignored; otherwise it is the engine's clock. |
| Orchestration.DeltaTime | Assets/Scripts/Redirection/RedirectionManager.cs:157-163 | With manual time the frame time is positive and `targetFPS` of them make one second; otherwise it is the engine's frame time. |
| Orchestration.Apply | Assets/Scripts/Redirection/RedirectionManager.cs:295-346 | Each swap replaces only its own strategy handle: removal nulls it, an update installs a component of the requested type, and only a new resetter is initialized. The reset trigger never changes, and nothing but a frame moves the clock, the user snapshots or the body. A reset end finalizes and clears the flag with a resetter, and changes nothing without one. |
| Orchestration.RunKeepsResetProtocol | Assets/Scripts/Redirection/RedirectionManager.cs:295-311 | Over any interleaving of frames, reset notifications, reset ends and swaps, a reset is never initialized while one is under way. `ApplyResetting` runs only inside a reset, and `inReset` is exactly what the call log implies. |
| Manager.RedirectionManager.RemoveRedirector | Assets/Scripts/Redirection/RedirectionManager.cs:313-319 | The redirector becomes null; nothing else changes. |
| Manager.RedirectionManager.RemoveResetter | Assets/Scripts/Redirection/RedirectionManager.cs:321-327 | The resetter becomes null; nothing else changes. |
| Manager.RedirectionManager.UpdateRedirector | Assets/Scripts/Redirection/RedirectionManager.cs:329-335 | The redirector becomes a new component of the given type; nothing else changes. |
| Manager.RedirectionManager.UpdateResetter | Assets/Scripts/Redirection/RedirectionManager.cs:337-346 | The resetter becomes a new component of the given type and is initialized once. Nothing else changes. |
| SteerTo.Hysteresis | Assets/Scripts/Redirection/Redirectors/S2CRedirector.cs:31-52 | One frame's hysteresis. A temporary target is created only when one is needed and none exists. An existing one is kept unchanged and is the current target while needed. When not needed, the live one is destroyed exactly once, the strategy steers to its fallback, and with none alive nothing is destroyed. The flag invariant is kept. |
| SteerTo.Run | Assets/Scripts/Redirection/Redirectors/S2CRedirector.cs:34-51 | Over any sequence of frames, `noTmpTarget` stays false iff a temporary target is alive. |
| SteerTo.RunIsProperLifecycle | Assets/Scripts/Redirection/Redirectors/S2CRedirector.cs:34-51 | Over any sequence of frames, creations and destructions alternate. At most one temporary target is alive, only the live one is destroyed, and the one alive at the end is `tmpTarget`. |
| SteerTo.HeldWhileNeeded | Assets/Scripts/Redirection/Redirectors/S2CRedirector.cs:34-41 | While a temporary target exists and stays needed, nothing is created or destroyed. Its position does not change, and it remains the current target. |
| SteerTo.CreatedOnceWhileNeeded | Assets/Scripts/Redirection/Redirectors/S2CRedirector.cs:31-41 | From no temporary target, a run of frames that all need one creates exactly one, at the first frame's position, and steers to it. |
| SteerTo.DestroyedWhenCleared | Assets/Scripts/Redirection/Redirectors/S2CRedirector.cs:43-52 | The frame on which the need clears destroys the live temporary target exactly once, leaves none, and steers to the fallback. |
| SteerTo.TempYaw | Assets/Scripts/Redirection/Redirectors/S2CRedirector.cs:37 | The corrected turn is a quarter turn, toward the side the tracked space lies on. |
| SteerTo.TempYawAsWrittenIsNotQuarterTurn | Assets/Scripts/Redirection/Redirectors/S2CRedirector.cs:37 | As written, a signed angle of 170 gives a half turn modulo 360, and 180 gives no turn. The corrected yaw gives a quarter turn for both. |
| S2C.PickToCenter | Assets/Scripts/Redirection/Redirectors/S2CRedirector.cs:16-53 | A temporary target is created iff the bearing is at least 160 (inclusive), the switch is off, and none exists. The new one is placed at distance 4 along the heading turned by the given yaw rule's yaw, and becomes `tmpTarget`. While needed, the temporary target is current and an existing one is reused unchanged. Otherwise the waypoint is current, `noTmpTarget` is true, and the live target, if any, is destroyed once. |
| S2C.S2CRedirector.constructor | Assets/Scripts/Redirection/Redirectors/S2CRedirector.cs:10 | A new strategy has no temporary target, no current target, an empty event log, and the temporary-target switch off. It places temporary targets by the yaw rule it is given. |
| S2C.S2CRedirector.PickRedirectionTarget | Assets/Scripts/Redirection/Redirectors/S2CRedirector.cs:16-53 | The in-place choice leaves exactly the state and events of `S2C.PickToCenter` for the manager's current frame. It keeps the class invariant: the flag matches the live target and the event log is a proper lifecycle. |
| S2T.PickToTarget | Assets/Scripts/Redirection/Redirectors/S2TargetRedirector.cs:15-44 | A temporary target is created iff the bearing is at least 160 (inclusive) and none exists; there is no switch. The new one is placed at distance 4 along the heading turned by the given yaw rule's yaw, and becomes `tmpTarget`. While needed, the temporary target is current and reused unchanged. Below 160 the tracked space is current, `noTmpTarget` is true, and the live target, if any, is destroyed once. |
| S2T.S2TargetRedirector.constructor | Assets/Scripts/Redirection/Redirectors/S2TargetRedirector.cs:6 | A new strategy has no temporary target, no current target and an empty event log. It places temporary targets by the yaw rule it is given. |
| S2T.S2TargetRedirector.PickRedirectionTarget | Assets/Scripts/Redirection/Redirectors/S2TargetRedirector.cs:15-44 | The in-place choice leaves exactly the state and events of `S2T.PickToTarget`, and keeps the class invariant. |

## Left out

- Engine wiring: `Awake`, the `Get*` helpers, `AddComponent`/`GetComponent` and `Transform.Find` are not modelled. Their result is represented as:
  - the handles given to the constructor;
  - removing a strategy as its field becoming null;
  - adding one as the field holding a component of the requested type.
- `GameObject.Destroy` and the parenting of temporary targets are not modelled. Destroying a temporary target is an event in a ghost log, and `tmpTarget` becomes `None`. In the code, the field keeps referring to the destroyed object, which the flag then marks as gone.
- The geometry helpers are parameters, not definitions. `Utilities`, `Vector3.Angle` and `Quaternion.Euler(0, yaw, 0) * v` are not part of this model. Single-precision rounding is not modelled; reals stand in for floats.
- `UpdateBodyPose`'s rotation (`Quaternion.LookRotation`) is not modelled; only the body position is.
- The wall-clock branches of `GetTime` and `GetDeltaTime` (`Time.time`, `Time.deltaTime`) are parameters.
- `Orchestration.LateUpdate` requires `targetFPS > 0`. A zero frame rate would divide by zero in floating point, which is not modelled.
- The collaborators' own behaviour is not modelled. Their answers and the scene after they run are inputs. This covers `IsUserOutOfBounds`, `IsResetRequired`, `InitializeReset`, `ApplyResetting`, `ApplyRedirection`, `FinalizeReset` and `Initialize`.
  - A collaborator that calls back into `OnResetEnd` from inside `ApplyResetting` is modelled as a `ResetEnd` event right after the frame. Nothing after the dispatch reads `inReset`, so the calls and the final state are the same.
- The `headTransform = simulatedHead` assignment in `Start` is not modelled. The head in the scene is whichever transform the engine reports.
- `Debug.LogWarning`, `UpdateTrackedSpaceDimensions` (a scale assignment and initialization calls) and `PlaneLocker` are not modelled. They are engine-side effects without logic to verify.
- `Manager.RedirectionManager.GetTime` and `Manager.RedirectionManager.GetDeltaTime` carry no contract of their own. They return the `Orchestration.Time` and `Orchestration.DeltaTime` of the current state, whose contracts and `Orchestration.ManualTimeCountsFrames` state what they promise.
- Swapping a strategy does not tear down the outgoing strategy's temporary target. `RemoveRedirector` destroys only the component (RedirectionManager.cs:313-319), so the temporary target's GameObject survives. The model has no scene objects, so this leftover is not represented.
- The initial `noTmpTarget = true` of the strategies comes from their base class `SteerToRedirector`. That class is not part of this model. The constructors assume the evident initial state: no temporary target.

## Findings

| source | as written | input that shows it | evidently intended | confidence | as-written member | corrected member |
|---|---|---|---|---|---|---|
| Assets/Scripts/Redirection/Redirectors/S2CRedirector.cs:37 | The temporary target's heading is turned by `Quaternion.Euler(0, directionToCenter * 90, 0)`, where `directionToCenter` is a signed angle in degrees. S2TargetRedirector.cs line 29 does the same. | A signed angle of 170 (bearing 170 ≥ 160) turns by 15300 = 42·360 + 180 degrees, so the target lands straight behind the user. A signed angle of 180 turns by 45 full turns, so it lands straight ahead, not to the side. | A quarter turn (±90 degrees) toward the side of the signed angle. | medium; not executed | SteerTo.TempYawAsWritten, SteerTo.TempYawAsWrittenIsNotQuarterTurn | SteerTo.TempYaw |

The placement of a new temporary target takes a `YawRule`: `AsWritten` uses the source's yaw, `Corrected` the quarter turn. `S2C.PickToCenter`, `S2T.PickToTarget` and both strategy classes take the rule as a parameter, so every contract about them holds for the code as written and for the correction alike.
