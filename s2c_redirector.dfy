/**
 * The steer-to-center strategy's target choice. Each frame it steers to the
 * manager's current waypoint, unless the user faces away from the tracked
 * space (a bearing of at least 160 degrees), in which case it steers to a
 * temporary target four units away, off to the side.
 */
module S2C {
  import opened Wrappers
  import opened Geometry
  import opened SteerTo
  import Manager

  /** A bearing at or above this many degrees calls for a temporary target. */
  const BearingThreshold: real := 160.0

  /** How far from the user a temporary target is placed. */
  const TempTargetDistance: real := 4.0

  /**
   * One `PickRedirectionTarget` call on values. A temporary target is needed
   * exactly when the bearing reaches the threshold (inclusive) and the
   * temporary-target switch is not set; it is created only if none exists,
   * at `TempTargetDistance` along the heading turned by `rule`'s yaw. Otherwise the strategy
   * steers to the waypoint and destroys the live temporary target, if any.
   */
  function PickToCenter(g: Geometry, rule: YawRule, dontUseTempTarget: bool, s: SteerState, f: SteerFrame): (r: Picked)
    requires s.Valid()
    ensures r.state.Valid()
    ensures r.events == [Created(TempTargetPosition(g, rule, TempTargetDistance, f))] <==>
      Bearing(g, f) >= BearingThreshold && !dontUseTempTarget && s.noTmpTarget
    ensures Bearing(g, f) >= BearingThreshold && !dontUseTempTarget ==>
      && r.state.tmpTarget.Some? && r.state.currentTarget == Some(Temp(r.state.tmpTarget.value))
      && (s.noTmpTarget ==> r.state.tmpTarget == Some(TempTargetPosition(g, rule, TempTargetDistance, f)))
      && (!s.noTmpTarget ==> r.events == [] && r.state.tmpTarget == s.tmpTarget)
    ensures !(Bearing(g, f) >= BearingThreshold && !dontUseTempTarget) ==>
      && r.state.currentTarget == Some(Waypoint(f.targetWaypoint))
      && r.state.noTmpTarget
      && r.events == (if s.noTmpTarget then [] else [Destroyed(s.tmpTarget.value)])
  {
    var needsTemp := Bearing(g, f) >= BearingThreshold && !dontUseTempTarget;
    Hysteresis(s, Step(needsTemp, TempTargetPosition(g, rule, TempTargetDistance, f), Waypoint(f.targetWaypoint)))
  }

  class S2CRedirector {
    const redirectionManager: Manager.RedirectionManager
    /** A testing switch that turns temporary targets off; it is never set. */
    const dontUseTempTargetInS2C: bool
    /** The yaw rule that places new temporary targets. */
    const yawRule: YawRule
    var noTmpTarget: bool
    var tmpTarget: Option<Vec3>
    var currentTarget: Option<Target>
    /** Every creation and destruction of a temporary target, in order. */
    ghost var tempTargetEvents: seq<TargetEvent>

    function State(): SteerState
      reads this
    {
      SteerState(noTmpTarget, tmpTarget, currentTarget)
    }

    /**
     * The flag agrees with the temporary target, and the targets created and
     * destroyed so far alternate properly and leave exactly the live one.
     */
    ghost predicate Valid()
      reads this
    {
      State().Valid() && Lifecycle(None, tempTargetEvents) == Some(tmpTarget)
    }

    constructor (manager: Manager.RedirectionManager, rule: YawRule)
      ensures Valid() && State() == Initial && tempTargetEvents == []
      ensures redirectionManager == manager && !dontUseTempTargetInS2C && yawRule == rule
    {
      redirectionManager := manager;
      dontUseTempTargetInS2C := false;
      yawRule := rule;
      noTmpTarget := true;
      tmpTarget := None;
      currentTarget := None;
      tempTargetEvents := [];
    }

    /** What this frame's choice reads from the manager. */
    function Frame(): SteerFrame
      reads redirectionManager
    {
      SteerFrame(redirectionManager.currPos, redirectionManager.currDir,
                 redirectionManager.trackedSpace.position, redirectionManager.targetWaypoint)
    }

    method PickRedirectionTarget()
      requires Valid()
      modifies this`noTmpTarget, this`tmpTarget, this`currentTarget, this`tempTargetEvents
      ensures Valid()
      ensures State() == PickToCenter(redirectionManager.geo, yawRule, dontUseTempTargetInS2C, old(State()), Frame()).state
      ensures tempTargetEvents == old(tempTargetEvents) + PickToCenter(redirectionManager.geo, yawRule, dontUseTempTargetInS2C, old(State()), Frame()).events
    {
      ghost var before := State();
      ghost var picked := PickToCenter(redirectionManager.geo, yawRule, dontUseTempTargetInS2C, before, Frame());
      var g := redirectionManager.geo;
      var trackingAreaPosition := g.flattenedPos(redirectionManager.trackedSpace.position);
      var userToCenter := Sub(trackingAreaPosition, redirectionManager.currPos);
      var bearingToCenter := g.angle(userToCenter, redirectionManager.currDir);
      var directionToCenter := g.signedAngle(redirectionManager.currDir, userToCenter);

      currentTarget := Some(Waypoint(redirectionManager.targetWaypoint));
      if bearingToCenter >= BearingThreshold && !dontUseTempTargetInS2C {
        if noTmpTarget {
          var position := Add(redirectionManager.currPos,
                              Scale(TempTargetDistance, g.yawRotate(RuleYaw(yawRule, directionToCenter), redirectionManager.currDir)));
          tmpTarget := Some(position);
          tempTargetEvents := tempTargetEvents + [Created(position)];
          noTmpTarget := false;
        }
        currentTarget := Some(Temp(tmpTarget.value));
      } else {
        if !noTmpTarget {
          tempTargetEvents := tempTargetEvents + [Destroyed(tmpTarget.value)];
          tmpTarget := None;
          noTmpTarget := true;
        }
      }
      assert Lifecycle(before.tmpTarget, picked.events) == Some(picked.state.tmpTarget);
      LifecycleAppend(None, old(tempTargetEvents), picked.events);
    }
  }
}
