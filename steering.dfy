/**
 * Steering-target selection shared by the steer-to strategies.
 *
 * Both strategies keep the same three fields of their (unshown) base class
 * `SteerToRedirector`: `noTmpTarget`, `tmpTarget` and `currentTarget`. Each
 * frame they measure the bearing from the user's heading to the flattened
 * tracked-space position; while that bearing is at least 160 degrees they
 * steer to a temporary target, created once and then reused, and once the
 * bearing drops below the threshold the temporary target is destroyed. This
 * module states that hysteresis once, on values, and proves what it promises
 * over any sequence of frames.
 */
module SteerTo {
  import opened Wrappers
  import opened Geometry

  /** What `currentTarget` refers to. */
  datatype Target =
    | Waypoint(id: Option<nat>)   // the transform held in the manager's `targetWaypoint` when picked (None: null)
    | TrackedSpace                // the manager's `trackedSpace` transform
    | Temp(position: Vec3)        // the strategy's own temporary target object, at this position

  /** A target that is not a temporary one: what a strategy falls back to. */
  type FixedTarget = t: Target | !t.Temp? witness TrackedSpace

  /**
   * The strategy's target bookkeeping. `tmpTarget` is the live temporary
   * target (its position), or None when there is none.
   */
  datatype SteerState = SteerState(noTmpTarget: bool, tmpTarget: Option<Vec3>, currentTarget: Option<Target>)
  {
    /** The flag agrees with the object's existence, and a temporary current target is the live one. */
    predicate Valid() {
      && (noTmpTarget <==> tmpTarget.None?)
      && (currentTarget.Some? && currentTarget.value.Temp? ==> tmpTarget == Some(currentTarget.value.position))
    }
  }

  /** The state of a freshly attached strategy: no temporary target and no target picked yet. */
  const Initial: SteerState := SteerState(true, None, None)

  /** What happens to temporary-target objects: `new GameObject(...)` and `GameObject.Destroy`. */
  datatype TargetEvent = Created(position: Vec3) | Destroyed(position: Vec3)

  datatype Picked = Picked(state: SteerState, events: seq<TargetEvent>)

  /**
   * One frame's decision: whether a temporary target is needed, where a new
   * one would be placed, and what to steer to when none is needed.
   */
  datatype Step = Step(needsTemp: bool, candidate: Vec3, fallback: FixedTarget)

  /** What `PickRedirectionTarget` reads from the manager. */
  datatype SteerFrame = SteerFrame(currPos: Vec3, currDir: Vec3, trackedSpacePos: Vec3, targetWaypoint: Option<nat>)

  /** The vector from the user to the flattened tracked-space position. */
  function UserToTrackedSpace(g: Geometry, f: SteerFrame): Vec3 {
    Sub(g.flattenedPos(f.trackedSpacePos), f.currPos)
  }

  /** The unsigned bearing, `Vector3.Angle(userToCenter, currDir)`. */
  function Bearing(g: Geometry, f: SteerFrame): real {
    g.angle(UserToTrackedSpace(g, f), f.currDir)
  }

  /** The signed bearing, `Utilities.GetSignedAngle(currDir, userToCenter)`. */
  function SignedBearing(g: Geometry, f: SteerFrame): real {
    g.signedAngle(f.currDir, UserToTrackedSpace(g, f))
  }

  /** The yaw passed to `Quaternion.Euler(0, yaw, 0)` as the source writes it: the signed angle times 90. */
  function TempYawAsWritten(signed: real): real {
    signed * 90.0
  }

  /**
   * The yaw that is evidently intended: a quarter turn toward the side on
   * which the tracked space lies (the sign of the signed angle, times 90).
   */
  function TempYaw(signed: real): (yaw: real)
    ensures yaw == 90.0 || yaw == -90.0
    ensures yaw > 0.0 <==> signed >= 0.0
  {
    if signed < 0.0 then -90.0 else 90.0
  }

  /**
   * The as-written yaw does not give a quarter turn: a signed angle of 170
   * degrees (a bearing the 160-degree test admits) gives 15300 degrees, which
   * is 42 full turns plus 180 degrees: the heading is turned around, so the
   * temporary target lands straight behind the user, on the same side as the
   * tracked space it was meant to route around, instead of to one side. A
   * signed angle of 180 degrees (the tracked space straight behind) gives 45
   * full turns: the target lands straight ahead. The corrected yaw is a
   * quarter turn in both cases.
   */
  lemma TempYawAsWrittenIsNotQuarterTurn()
    ensures TempYawAsWritten(170.0) == 42.0 * 360.0 + 180.0
    ensures TempYawAsWritten(180.0) == 45.0 * 360.0
    ensures TempYaw(170.0) == 90.0 && TempYaw(180.0) == 90.0
  {
  }

  /** Which yaw places a new temporary target: the one the source computes, or the corrected quarter turn. */
  datatype YawRule = AsWritten | Corrected

  function RuleYaw(rule: YawRule, signed: real): real {
    match rule
    case AsWritten => TempYawAsWritten(signed)
    case Corrected => TempYaw(signed)
  }

  /** Where a new temporary target goes: `currPos + distance * (rotation(yaw) * currDir)`. */
  function TempTargetPosition(g: Geometry, rule: YawRule, distance: real, f: SteerFrame): Vec3 {
    Add(f.currPos, Scale(distance, g.yawRotate(RuleYaw(rule, SignedBearing(g, f)), f.currDir)))
  }

  /**
   * The temporary-target hysteresis of one `PickRedirectionTarget` call.
   * A temporary target is created only when one is needed and none exists;
   * an existing one is kept unchanged while it is needed and destroyed as
   * soon as it is not.
   */
  function Hysteresis(s: SteerState, st: Step): (r: Picked)
    requires s.Valid()
    ensures r.state.Valid()
    ensures st.needsTemp && s.noTmpTarget ==>
      r.events == [Created(st.candidate)] && r.state.tmpTarget == Some(st.candidate)
    ensures st.needsTemp && !s.noTmpTarget ==>
      r.events == [] && r.state.tmpTarget == s.tmpTarget
    ensures st.needsTemp ==>
      !r.state.noTmpTarget && r.state.currentTarget == Some(Temp(r.state.tmpTarget.value))
    ensures !st.needsTemp ==>
      r.state.noTmpTarget && r.state.currentTarget == Some(st.fallback)
    ensures !st.needsTemp ==>
      r.events == if s.noTmpTarget then [] else [Destroyed(s.tmpTarget.value)]
  {
    if st.needsTemp then
      var tmp := if s.noTmpTarget then st.candidate else s.tmpTarget.value;
      Picked(SteerState(false, Some(tmp), Some(Temp(tmp))), if s.noTmpTarget then [Created(st.candidate)] else [])
    else
      Picked(SteerState(true, None, Some(st.fallback)), if s.noTmpTarget then [] else [Destroyed(s.tmpTarget.value)])
  }

  /** The strategy run over a sequence of frames, with every temporary-target event in order. */
  function Run(s: SteerState, steps: seq<Step>): (r: Picked)
    requires s.Valid()
    ensures r.state.Valid()
    decreases |steps|
  {
    if steps == [] then Picked(s, [])
    else
      var first := Hysteresis(s, steps[0]);
      var rest := Run(first.state, steps[1..]);
      Picked(rest.state, first.events + rest.events)
  }

  /**
   * The temporary-target objects alive after `events`, starting from `live`,
   * or None when the events are not a proper lifecycle: a creation while one
   * is alive, or a destruction of anything but the live one.
   */
  function Lifecycle(live: Option<Vec3>, events: seq<TargetEvent>): Option<Option<Vec3>>
    decreases |events|
  {
    if events == [] then Some(live)
    else match events[0]
      case Created(p) => if live.Some? then None else Lifecycle(Some(p), events[1..])
      case Destroyed(p) => if live != Some(p) then None else Lifecycle(None, events[1..])
  }

  lemma {:induction false} LifecycleAppend(live: Option<Vec3>, a: seq<TargetEvent>, b: seq<TargetEvent>)
    requires Lifecycle(live, a).Some?
    ensures Lifecycle(live, a + b) == Lifecycle(Lifecycle(live, a).value, b)
    decreases |a|
  {
    if a == [] {
      assert a + b == b;
    } else {
      assert (a + b)[0] == a[0];
      assert (a + b)[1..] == a[1..] + b;
      match a[0]
      case Created(p) => LifecycleAppend(Some(p), a[1..], b);
      case Destroyed(p) => LifecycleAppend(None, a[1..], b);
    }
  }

  /**
   * Over any sequence of frames, temporary targets are created and destroyed
   * in strict alternation: at most one is alive at any time, only the live one
   * is ever destroyed, and the one alive at the end is the state's `tmpTarget`.
   */
  lemma {:induction false} RunIsProperLifecycle(s: SteerState, steps: seq<Step>)
    requires s.Valid()
    ensures Lifecycle(s.tmpTarget, Run(s, steps).events) == Some(Run(s, steps).state.tmpTarget)
    decreases |steps|
  {
    if steps != [] {
      var first := Hysteresis(s, steps[0]);
      assert Lifecycle(s.tmpTarget, first.events) == Some(first.state.tmpTarget);
      RunIsProperLifecycle(first.state, steps[1..]);
      LifecycleAppend(s.tmpTarget, first.events, Run(first.state, steps[1..]).events);
    }
  }

  /**
   * While a temporary target exists and the condition keeps holding, no
   * target is created or destroyed, the temporary target does not move, and
   * it stays the current target.
   */
  lemma {:induction false} HeldWhileNeeded(s: SteerState, steps: seq<Step>)
    requires s.Valid() && !s.noTmpTarget
    requires forall i :: 0 <= i < |steps| ==> steps[i].needsTemp
    ensures Run(s, steps).events == []
    ensures Run(s, steps).state.tmpTarget == s.tmpTarget
    ensures steps != [] ==> Run(s, steps).state.currentTarget == Some(Temp(s.tmpTarget.value))
    decreases |steps|
  {
    if steps != [] {
      var first := Hysteresis(s, steps[0]);
      HeldWhileNeeded(first.state, steps[1..]);
    }
  }

  /**
   * Starting with no temporary target, a run of frames that all need one
   * creates exactly one, at the position chosen on the first frame, and ends
   * steering to it.
   */
  lemma CreatedOnceWhileNeeded(s: SteerState, steps: seq<Step>)
    requires s.Valid() && s.noTmpTarget && steps != []
    requires forall i :: 0 <= i < |steps| ==> steps[i].needsTemp
    ensures Run(s, steps).events == [Created(steps[0].candidate)]
    ensures Run(s, steps).state.tmpTarget == Some(steps[0].candidate)
    ensures Run(s, steps).state.currentTarget == Some(Temp(steps[0].candidate))
  {
    var first := Hysteresis(s, steps[0]);
    HeldWhileNeeded(first.state, steps[1..]);
    assert first.events + [] == first.events;
  }

  /** Running one more frame appends that frame's events to the run's. */
  lemma {:induction false} RunSnoc(s: SteerState, steps: seq<Step>, last: Step)
    requires s.Valid()
    ensures Run(s, steps + [last]) ==
      var before := Run(s, steps);
      var now := Hysteresis(before.state, last);
      Picked(now.state, before.events + now.events)
    decreases |steps|
  {
    if steps == [] {
      assert steps + [last] == [last];
    } else {
      var first := Hysteresis(s, steps[0]);
      assert (steps + [last])[0] == steps[0];
      assert (steps + [last])[1..] == steps[1..] + [last];
      RunSnoc(first.state, steps[1..], last);
    }
  }

  /**
   * The frame on which the condition clears destroys the live temporary
   * target, exactly once, and the strategy steers to its fallback target.
   */
  lemma DestroyedWhenCleared(s: SteerState, steps: seq<Step>, last: Step)
    requires s.Valid() && !last.needsTemp
    ensures var before := Run(s, steps);
      && Run(s, steps + [last]).events == before.events + (if before.state.noTmpTarget then [] else [Destroyed(before.state.tmpTarget.value)])
      && Run(s, steps + [last]).state.noTmpTarget
      && Run(s, steps + [last]).state.currentTarget == Some(last.fallback)
  {
    RunSnoc(s, steps, last);
  }
}
