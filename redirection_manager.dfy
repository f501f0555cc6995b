/**
 * `RedirectionManager` as a class: the fields the per-frame loop and the
 * reset state machine update in place, and the methods that update them.
 * Each method is proved to leave `State()` where the matching function of
 * `Orchestration` puts it and to append that function's calls to the ghost
 * call log, so every property proved there holds of the class.
 */
module Manager {
  import opened Wrappers
  import opened Geometry
  import opened Orchestration

  class RedirectionManager {
    const geo: Geometry
    const targetFPS: real
    const useManualTime: bool

    var inReset: bool
    var simulatedTime: real
    var currPos: Vec3
    var currPosReal: Vec3
    var currDir: Vec3
    var currDirReal: Vec3
    var prevPos: Vec3
    var prevPosReal: Vec3
    var prevDir: Vec3
    var prevDirReal: Vec3
    var deltaPos: Vec3
    var deltaDir: real
    var bodyPosition: Vec3
    var redirector: Option<Component>
    var resetter: Option<Component>
    var resetTrigger: Option<Component>
    /** Read by the steering strategies; set up and moved by code outside this model. */
    var trackedSpace: Transform
    var targetWaypoint: Option<nat>
    /** Every call made into the redirector, the resetter and the reset trigger, in order. */
    ghost var calls: seq<Call>

    function Settings(): Config {
      Config(geo, targetFPS, useManualTime)
    }

    /** The fields the core reads and writes, as one value. */
    function State(): ManagerState
      reads this
    {
      ManagerState(inReset, simulatedTime,
        UserState(currPos, currPosReal, currDir, currDirReal),
        UserState(prevPos, prevPosReal, prevDir, prevDirReal),
        deltaPos, deltaDir, bodyPosition, redirector, resetter, resetTrigger)
    }

    /**
     * A manager whose strategies have been attached: the fields start at the
     * engine's defaults (zero vectors, no reset, clock at zero).
     */
    constructor (geo: Geometry, targetFPS: real, useManualTime: bool,
                 redirector: Option<Component>, resetter: Option<Component>, resetTrigger: Option<Component>,
                 trackedSpace: Transform)
      ensures Settings() == Config(geo, targetFPS, useManualTime)
      ensures State() == ManagerState(false, 0.0, UserState(Zero, Zero, Zero, Zero), UserState(Zero, Zero, Zero, Zero),
                                      Zero, 0.0, Zero, redirector, resetter, resetTrigger)
      ensures this.trackedSpace == trackedSpace && targetWaypoint == None && calls == []
    {
      this.geo := geo;
      this.targetFPS := targetFPS;
      this.useManualTime := useManualTime;
      inReset := false;
      simulatedTime := 0.0;
      currPos, currPosReal, currDir, currDirReal := Zero, Zero, Zero, Zero;
      prevPos, prevPosReal, prevDir, prevDirReal := Zero, Zero, Zero, Zero;
      deltaPos, deltaDir, bodyPosition := Zero, 0.0, Zero;
      this.redirector := redirector;
      this.resetter := resetter;
      this.resetTrigger := resetTrigger;
      this.trackedSpace := trackedSpace;
      targetWaypoint := None;
      calls := [];
    }

    /** Initialize the collaborators, reset the clock, and take the first snapshot of the user. */
    method Start(scene: Scene)
      modifies this`calls, this`simulatedTime, this`prevPos, this`prevPosReal, this`prevDir, this`prevDirReal
      ensures State() == Orchestration.Start(geo, old(State()), scene).state
      ensures calls == old(calls) + Orchestration.Start(geo, old(State()), scene).calls
    {
      if resetTrigger.Some? {
        calls := calls + [ResetTriggerInitialize];
      }
      if resetter.Some? {
        calls := calls + [ResetterInitialize];
      }
      simulatedTime := 0.0;
      assert State() == old(State()).(simulatedTime := 0.0);
      UpdatePreviousUserState(scene);
    }

    /** One frame. */
    method LateUpdate(f: FrameInput)
      requires Settings().Valid()
      modifies this`calls, this`simulatedTime, this`inReset, this`bodyPosition, this`deltaPos, this`deltaDir
      modifies this`currPos, this`currPosReal, this`currDir, this`currDirReal
      modifies this`prevPos, this`prevPosReal, this`prevDir, this`prevDirReal
      ensures State() == Orchestration.LateUpdate(Settings(), old(State()), f).state
      ensures calls == old(calls) + Orchestration.LateUpdate(Settings(), old(State()), f).calls
    {
      ghost var s := State();
      ghost var before := calls;
      ghost var e := Orchestration.LateUpdate(Settings(), s, f);
      ghost var backup := BackupCalls(s.inReset, s.resetter.Some?, f.outOfBounds, f.resetRequired);
      ghost var dispatch := DispatchCalls(InResetAfterBackup(s.inReset, s.resetter.Some?, f.outOfBounds, f.resetRequired),
                                          s.resetter.Some?, s.redirector.Some?);
      assert e.calls == backup + dispatch;

      CaptureFrameState(f.atCapture);
      ghost var captured := State();
      var resetStarted := BackupCheck(f);
      var applied := Dispatch();
      assert calls == before + (backup + dispatch);
      FrameMovesUser(s.inReset, s.resetter.Some?, s.redirector.Some?, f.outOfBounds, f.resetRequired);
      var scene := if resetStarted || applied then f.afterStrategies else f.atCapture;
      assert scene == SnapshotScene(e.calls, f);
      SnapshotFrameState(scene);
      assert State() == captured.(inReset := inReset, prev := Capture(geo, scene), bodyPos := geo.flattenedPos(scene.head.position));
    }

    /** The first steps of a frame: advance the clock, capture the user, compute the delta. */
    method CaptureFrameState(scene: Scene)
      requires Settings().Valid()
      modifies this`simulatedTime, this`deltaPos, this`deltaDir
      modifies this`currPos, this`currPosReal, this`currDir, this`currDirReal
      ensures State() == CaptureFrame(Settings(), old(State()), scene)
    {
      simulatedTime := simulatedTime + 1.0 / targetFPS;
      assert State() == old(State()).(simulatedTime := old(simulatedTime) + 1.0 / targetFPS);
      UpdateCurrentUserState(scene);
      CalculateStateChanges();
    }

    /** The last steps of a frame: snapshot the user and place the body. */
    method SnapshotFrameState(scene: Scene)
      modifies this`bodyPosition, this`prevPos, this`prevPosReal, this`prevDir, this`prevDirReal
      ensures State() == old(State()).(prev := Capture(geo, scene), bodyPos := geo.flattenedPos(scene.head.position))
    {
      UpdatePreviousUserState(scene);
      UpdateBodyPose(scene);
    }

    /**
     * The backup in case the reset trigger failed to report that the user
     * left the tracked space; `resetStarted` tells whether it initialized a reset.
     */
    method BackupCheck(f: FrameInput) returns (resetStarted: bool)
      modifies this`inReset, this`calls
      ensures State() == old(State()).(inReset := InResetAfterBackup(old(inReset), resetter.Some?, f.outOfBounds, f.resetRequired))
      ensures calls == old(calls) + BackupCalls(old(inReset), resetter.Some?, f.outOfBounds, f.resetRequired)
      ensures resetStarted <==> InitializeReset in BackupCalls(old(inReset), resetter.Some?, f.outOfBounds, f.resetRequired)
    {
      resetStarted := false;
      if resetter.Some? && !inReset {
        calls := calls + [IsUserOutOfBounds];
        if f.outOfBounds {
          OnResetTrigger(f.resetRequired);
          resetStarted := inReset;
        }
      }
    }

    /** Run the resetter during a reset, otherwise the redirector; `applied` tells whether either ran. */
    method Dispatch() returns (applied: bool)
      modifies this`calls
      ensures calls == old(calls) + DispatchCalls(inReset, resetter.Some?, redirector.Some?)
      ensures applied <==> DispatchCalls(inReset, resetter.Some?, redirector.Some?) != []
    {
      applied := false;
      if inReset && resetter.Some? {
        calls := calls + [ApplyResetting];
        applied := true;
      } else if redirector.Some? {
        calls := calls + [ApplyRedirection];
        applied := true;
      }
    }

    /** Where a strategy answers `GetTime`. */
    function GetTime(wallClockTime: real): real
      reads this
    {
      Time(Settings(), State(), wallClockTime)
    }

    /** Where a strategy answers `GetDeltaTime`. */
    function GetDeltaTime(wallClockDelta: real): real
      requires Settings().Valid()
    {
      DeltaTime(Settings(), wallClockDelta)
    }

    /** The position half of `UpdateBodyPose`: the body stands under the head. */
    method UpdateBodyPose(scene: Scene)
      modifies this`bodyPosition
      ensures State() == old(State()).(bodyPos := geo.flattenedPos(scene.head.position))
    {
      bodyPosition := geo.flattenedPos(scene.head.position);
    }

    method UpdateCurrentUserState(scene: Scene)
      modifies this`currPos, this`currPosReal, this`currDir, this`currDirReal
      ensures State() == old(State()).(curr := Capture(geo, scene))
    {
      currPos := geo.flattenedPos(scene.head.position);
      currPosReal := geo.relativePos(currPos, scene.rig);
      currDir := geo.flattenedDir(scene.head.forward);
      currDirReal := geo.flattenedDir(geo.relativeDir(currDir, scene.rig));
    }

    method UpdatePreviousUserState(scene: Scene)
      modifies this`prevPos, this`prevPosReal, this`prevDir, this`prevDirReal
      ensures State() == old(State()).(prev := Capture(geo, scene))
    {
      prevPos := geo.flattenedPos(scene.head.position);
      prevPosReal := geo.relativePos(prevPos, scene.rig);
      prevDir := geo.flattenedDir(scene.head.forward);
      prevDirReal := geo.flattenedDir(geo.relativeDir(prevDir, scene.rig));
    }

    method CalculateStateChanges()
      modifies this`deltaPos, this`deltaDir
      ensures State() == old(State()).(deltaPos := Sub(currPos, prevPos), deltaDir := geo.signedAngle(prevDir, currDir))
    {
      deltaPos := Sub(currPos, prevPos);
      deltaDir := geo.signedAngle(prevDir, currDir);
    }

    /** A reset notification, here `resetRequired` is what the resetter would answer. */
    method OnResetTrigger(resetRequired: bool)
      modifies this`inReset, this`calls
      ensures State() == Orchestration.OnResetTrigger(old(State()), resetRequired).state
      ensures calls == old(calls) + Orchestration.OnResetTrigger(old(State()), resetRequired).calls
    {
      if inReset {
        return;
      }
      if resetter.Some? {
        calls := calls + [IsResetRequired];
        if resetRequired {
          calls := calls + [InitializeReset];
          inReset := true;
        }
      }
    }

    /** The end of a reset; `nullResetter` reports the exception a missing resetter raises before anything changes. */
    method OnResetEnd() returns (nullResetter: bool)
      modifies this`inReset, this`calls
      ensures nullResetter <==> Orchestration.OnResetEnd(old(State())).NullResetter?
      ensures nullResetter ==> State() == old(State()) && calls == old(calls)
      ensures !nullResetter ==> State() == Orchestration.OnResetEnd(old(State())).effect.state
      ensures !nullResetter ==> calls == old(calls) + Orchestration.OnResetEnd(old(State())).effect.calls
    {
      if resetter.None? {
        return true;
      }
      calls := calls + [FinalizeReset];
      inReset := false;
      return false;
    }

    method RemoveRedirector()
      modifies this`redirector
      ensures State() == old(State()).(redirector := None)
    {
      redirector := None;
    }

    method RemoveResetter()
      modifies this`resetter
      ensures State() == old(State()).(resetter := None)
    {
      resetter := None;
    }

    /** Replace the redirector by a new component of the given type. */
    method UpdateRedirector(redirectorType: string)
      modifies this`redirector
      ensures State() == old(State()).(redirector := Some(Component(redirectorType)))
    {
      RemoveRedirector();
      redirector := Some(Component(redirectorType));
    }

    /** Replace the resetter by a new component of the given type, and initialize it. */
    method UpdateResetter(resetterType: string)
      modifies this`resetter, this`calls
      ensures State() == old(State()).(resetter := Some(Component(resetterType)))
      ensures calls == old(calls) + [ResetterInitialize]
    {
      RemoveResetter();
      resetter := Some(Component(resetterType));
      calls := calls + [ResetterInitialize];
    }
  }
}
