/**
 * The redirection manager's per-frame orchestration and reset state machine,
 * stated on values.
 *
 * `ManagerState` holds the fields of `RedirectionManager` that the core
 * reads and writes; every operation returns the new state together with the
 * calls it made into the redirector and resetter, in order. What those
 * collaborators answer (`IsUserOutOfBounds`, `IsResetRequired`) is an input,
 * and where they may move the user (`InitializeReset`, `ApplyResetting`,
 * `ApplyRedirection`) the scene the engine reports afterwards is an input too.
 */
module Orchestration {
  import opened Wrappers
  import opened Geometry

  /** A strategy component attached to the manager's game object, named by its type. */
  datatype Component = Component(typeName: string)

  /** The calls the manager makes into its collaborators. */
  datatype Call =
    | ResetTriggerInitialize   // resetTrigger.Initialize()
    | ResetterInitialize       // resetter.Initialize()
    | IsUserOutOfBounds        // resetter.IsUserOutOfBounds()
    | IsResetRequired          // resetter.IsResetRequired()
    | InitializeReset          // resetter.InitializeReset()
    | ApplyResetting           // resetter.ApplyResetting()
    | ApplyRedirection         // redirector.ApplyRedirection()
    | FinalizeReset            // resetter.FinalizeReset()

  /** How many times `c` occurs in `calls`. */
  function Count(c: Call, calls: seq<Call>): nat
    decreases |calls|
  {
    if calls == [] then 0 else (if calls[0] == c then 1 else 0) + Count(c, calls[1..])
  }

  lemma {:induction false} CountAppend(c: Call, a: seq<Call>, b: seq<Call>)
    ensures Count(c, a + b) == Count(c, a) + Count(c, b)
    decreases |a|
  {
    if a == [] {
      assert a + b == b;
    } else {
      assert (a + b)[0] == a[0];
      assert (a + b)[1..] == a[1..] + b;
      CountAppend(c, a[1..], b);
    }
  }

  lemma {:induction false} CountAbsent(c: Call, calls: seq<Call>)
    requires c !in calls
    ensures Count(c, calls) == 0
    decreases |calls|
  {
    if calls != [] {
      assert calls[0] != c;
      assert forall x | x in calls[1..] :: x in calls;
      CountAbsent(c, calls[1..]);
    }
  }

  lemma LastCallIsAppended(a: seq<Call>, d: seq<Call>, c: Call)
    requires c !in a && |d| <= 1
    ensures c in a + d ==> (a + d)[|a + d| - 1] == c
  {
    if c in a + d {
      var i :| 0 <= i < |a + d| && (a + d)[i] == c;
      assert i >= |a|;
    }
  }

  // The calls of each operation depend only on the reset flag, on which
  // strategies are attached and on what the resetter answers.

  /**
   * `OnResetTrigger`'s calls: none during a reset or without a resetter;
   * otherwise ask `IsResetRequired`, and initialize the reset if it is.
   */
  function ResetTriggerCalls(inReset: bool, hasResetter: bool, resetRequired: bool): (calls: seq<Call>)
    ensures inReset || !hasResetter ==> calls == []
    ensures !inReset && hasResetter ==> |calls| >= 1 && calls[0] == IsResetRequired
    ensures Count(InitializeReset, calls) == (if !inReset && hasResetter && resetRequired then 1 else 0)
    ensures InitializeReset in calls ==> calls[|calls| - 1] == InitializeReset
    ensures Count(IsResetRequired, calls) == (if !inReset && hasResetter then 1 else 0)
    ensures IsUserOutOfBounds !in calls && ApplyResetting !in calls && ApplyRedirection !in calls && FinalizeReset !in calls
    ensures forall c | c in calls :: c == IsResetRequired || c == InitializeReset
  {
    if inReset || !hasResetter then []
    else if resetRequired then [IsResetRequired, InitializeReset]
    else [IsResetRequired]
  }

  /** `OnResetTrigger` keeps the reset protocol. */
  lemma TriggerKeepsResetProtocol(inReset: bool, hasResetter: bool, resetRequired: bool)
    ensures ReplayReset(inReset, ResetTriggerCalls(inReset, hasResetter, resetRequired)) ==
      Some(inReset || (hasResetter && resetRequired))
  {
    var calls := ResetTriggerCalls(inReset, hasResetter, resetRequired);
    if !inReset && hasResetter {
      assert ReplayReset(inReset, calls) == ReplayReset(inReset, calls[1..]);
      if resetRequired {
        assert calls[1..] == [InitializeReset] && calls[1..][1..] == [];
        assert ReplayReset(inReset, calls[1..]) == ReplayReset(true, []);
      } else {
        assert calls[1..] == [];
      }
    }
  }

  /** Whether a reset is under way after the out-of-bounds backup. */
  function InResetAfterBackup(inReset: bool, hasResetter: bool, outOfBounds: bool, resetRequired: bool): bool {
    inReset || (hasResetter && outOfBounds && resetRequired)
  }

  /** The out-of-bounds backup's calls: with a resetter and outside a reset, ask, and trigger if out of bounds. */
  function BackupCalls(inReset: bool, hasResetter: bool, outOfBounds: bool, resetRequired: bool): (calls: seq<Call>)
    ensures Count(IsUserOutOfBounds, calls) == (if hasResetter && !inReset then 1 else 0)
    ensures Count(InitializeReset, calls) == (if !inReset && hasResetter && outOfBounds && resetRequired then 1 else 0)
    ensures ApplyResetting !in calls && ApplyRedirection !in calls && FinalizeReset !in calls
    ensures forall c | c in calls :: c == IsUserOutOfBounds || c == IsResetRequired || c == InitializeReset
    ensures ReplayReset(inReset, calls) == Some(InResetAfterBackup(inReset, hasResetter, outOfBounds, resetRequired))
  {
    if hasResetter && !inReset then
      var trigger := if outOfBounds then ResetTriggerCalls(inReset, hasResetter, resetRequired) else [];
      CountAbsent(IsUserOutOfBounds, trigger);
      CountAppend(IsUserOutOfBounds, [IsUserOutOfBounds], trigger);
      CountAppend(InitializeReset, [IsUserOutOfBounds], trigger);
      assert ([IsUserOutOfBounds] + trigger)[1..] == trigger;
      assert ReplayReset(inReset, [IsUserOutOfBounds] + trigger) == ReplayReset(inReset, trigger);
      TriggerKeepsResetProtocol(inReset, hasResetter, resetRequired);
      [IsUserOutOfBounds] + trigger
    else []
  }

  /** The dispatch's calls: the resetter during a reset, otherwise the redirector, otherwise nothing. */
  function DispatchCalls(inReset: bool, hasResetter: bool, hasRedirector: bool): (calls: seq<Call>)
    ensures |calls| <= 1
    ensures Count(ApplyResetting, calls) == (if inReset && hasResetter then 1 else 0)
    ensures Count(ApplyRedirection, calls) == (if !(inReset && hasResetter) && hasRedirector then 1 else 0)
    ensures IsUserOutOfBounds !in calls && InitializeReset !in calls && FinalizeReset !in calls
    ensures forall c | c in calls :: c == ApplyResetting || c == ApplyRedirection
    ensures ReplayReset(inReset, calls) == (if !inReset && ApplyResetting in calls then None else Some(inReset))
  {
    if inReset && hasResetter then [ApplyResetting]
    else if hasRedirector then [ApplyRedirection]
    else []
  }

  /**
   * The collaborator calls of one frame, in order: the out-of-bounds backup
   * (which may trigger a reset) and then the dispatch to at most one strategy.
   */
  function FrameCalls(inReset: bool, hasResetter: bool, hasRedirector: bool, outOfBounds: bool, resetRequired: bool): (calls: seq<Call>)
    // the backup asks only with a resetter and outside a reset, and starts a reset the resetter requires
    ensures Count(IsUserOutOfBounds, calls) == (if hasResetter && !inReset then 1 else 0)
    ensures Count(InitializeReset, calls) == (if !inReset && hasResetter && outOfBounds && resetRequired then 1 else 0)
    // the resetter is applied iff a reset is under way after the backup and there is a resetter
    ensures Count(ApplyResetting, calls) ==
      (if InResetAfterBackup(inReset, hasResetter, outOfBounds, resetRequired) && hasResetter then 1 else 0)
    // otherwise the redirector, if there is one
    ensures Count(ApplyRedirection, calls) ==
      (if !(InResetAfterBackup(inReset, hasResetter, outOfBounds, resetRequired) && hasResetter) && hasRedirector then 1 else 0)
    // a strategy is applied last, after any reset it needs has been initialized
    ensures ApplyResetting in calls ==> calls[|calls| - 1] == ApplyResetting
    ensures ApplyRedirection in calls ==> calls[|calls| - 1] == ApplyRedirection
    // a frame never initializes a strategy and never finalizes a reset
    ensures ResetTriggerInitialize !in calls && ResetterInitialize !in calls && FinalizeReset !in calls
    ensures FinalizeReset !in calls
  {
    var backup := BackupCalls(inReset, hasResetter, outOfBounds, resetRequired);
    var dispatch := DispatchCalls(InResetAfterBackup(inReset, hasResetter, outOfBounds, resetRequired), hasResetter, hasRedirector);
    CountAbsent(IsUserOutOfBounds, dispatch);
    CountAbsent(InitializeReset, dispatch);
    CountAbsent(ApplyResetting, backup);
    CountAbsent(ApplyRedirection, backup);
    CountAppend(IsUserOutOfBounds, backup, dispatch);
    CountAppend(InitializeReset, backup, dispatch);
    CountAppend(ApplyResetting, backup, dispatch);
    CountAppend(ApplyRedirection, backup, dispatch);
    LastCallIsAppended(backup, dispatch, ApplyResetting);
    LastCallIsAppended(backup, dispatch, ApplyRedirection);
    backup + dispatch
  }

  /**
   * Replays a call log against the reset flag: `InitializeReset` sets it and
   * is allowed only when it is clear, `FinalizeReset` clears it, and
   * `ApplyResetting` is allowed only while it is set. None: the log breaks
   * these rules.
   */
  function ReplayReset(inReset: bool, calls: seq<Call>): Option<bool>
    decreases |calls|
  {
    if calls == [] then Some(inReset)
    else match calls[0]
      case InitializeReset => if inReset then None else ReplayReset(true, calls[1..])
      case FinalizeReset => ReplayReset(false, calls[1..])
      case ApplyResetting => if inReset then ReplayReset(inReset, calls[1..]) else None
      case _ => ReplayReset(inReset, calls[1..])
  }

  lemma {:induction false} ReplayResetAppend(inReset: bool, a: seq<Call>, b: seq<Call>)
    requires ReplayReset(inReset, a).Some?
    ensures ReplayReset(inReset, a + b) == ReplayReset(ReplayReset(inReset, a).value, b)
    decreases |a|
  {
    if a == [] {
      assert a + b == b;
    } else {
      assert (a + b)[0] == a[0];
      assert (a + b)[1..] == a[1..] + b;
      match a[0]
      case InitializeReset => ReplayResetAppend(true, a[1..], b);
      case FinalizeReset => ReplayResetAppend(false, a[1..], b);
      case _ => ReplayResetAppend(inReset, a[1..], b);
    }
  }

  /** A frame keeps the reset protocol and leaves the flag where the backup put it. */
  lemma FrameKeepsResetProtocol(inReset: bool, hasResetter: bool, hasRedirector: bool, outOfBounds: bool, resetRequired: bool)
    ensures ReplayReset(inReset, FrameCalls(inReset, hasResetter, hasRedirector, outOfBounds, resetRequired)) ==
      Some(InResetAfterBackup(inReset, hasResetter, outOfBounds, resetRequired))
  {
    var after := InResetAfterBackup(inReset, hasResetter, outOfBounds, resetRequired);
    ReplayResetAppend(inReset, BackupCalls(inReset, hasResetter, outOfBounds, resetRequired), DispatchCalls(after, hasResetter, hasRedirector));
  }

  /** The manager's configuration: the geometry helpers, `targetFPS` and `useManualTime`. */
  datatype Config = Config(geo: Geometry, targetFPS: real, useManualTime: bool)
  {
    predicate Valid() { targetFPS > 0.0 }
  }

  /** What the engine shows the manager: the head's transform and the manager's own transform. */
  datatype Scene = Scene(head: Transform, rig: Transform)

  /** One snapshot of the user: flattened world position and direction, and both relative to the manager's frame. */
  datatype UserState = UserState(pos: Vec3, posReal: Vec3, dir: Vec3, dirReal: Vec3)

  /** `UpdateCurrentUserState` and `UpdatePreviousUserState` both take this snapshot of the head. */
  function Capture(geo: Geometry, scene: Scene): UserState {
    var pos := geo.flattenedPos(scene.head.position);
    var dir := geo.flattenedDir(scene.head.forward);
    UserState(pos, geo.relativePos(pos, scene.rig), dir, geo.flattenedDir(geo.relativeDir(dir, scene.rig)))
  }

  datatype ManagerState = ManagerState(
    inReset: bool,
    simulatedTime: real,
    curr: UserState,
    prev: UserState,
    deltaPos: Vec3,
    deltaDir: real,
    bodyPos: Vec3,
    redirector: Option<Component>,
    resetter: Option<Component>,
    resetTrigger: Option<Component>)

  /** A new state and the collaborator calls made on the way, in order. */
  datatype Effect = Effect(state: ManagerState, calls: seq<Call>)

  /** `Start`: initialize the reset trigger and the resetter, reset the clock, take the first snapshot. */
  function Start(geo: Geometry, s: ManagerState, scene: Scene): (r: Effect)
    ensures r.state == s.(simulatedTime := 0.0, prev := Capture(geo, scene))
    ensures (ResetTriggerInitialize in r.calls <==> s.resetTrigger.Some?) && (ResetterInitialize in r.calls <==> s.resetter.Some?)
    ensures |r.calls| <= 2 && (|r.calls| == 2 ==> r.calls == [ResetTriggerInitialize, ResetterInitialize])
  {
    var calls := (if s.resetTrigger.Some? then [ResetTriggerInitialize] else [])
               + (if s.resetter.Some? then [ResetterInitialize] else []);
    Effect(s.(simulatedTime := 0.0, prev := Capture(geo, scene)), calls)
  }

  /**
   * `OnResetTrigger`: ignored during a reset; otherwise, when there is a
   * resetter and it says a reset is required, the reset is initialized and
   * `inReset` becomes true. Nothing else changes.
   */
  function OnResetTrigger(s: ManagerState, resetRequired: bool): (r: Effect)
    ensures r.calls == ResetTriggerCalls(s.inReset, s.resetter.Some?, resetRequired)
    ensures r.state == s.(inReset := s.inReset || (s.resetter.Some? && resetRequired))
  {
    if s.inReset then Effect(s, [])
    else if s.resetter.Some? && resetRequired then Effect(s.(inReset := true), [IsResetRequired, InitializeReset])
    else if s.resetter.Some? then Effect(s, [IsResetRequired])
    else Effect(s, [])
  }

  /** How `OnResetEnd` ends: normally, or by dereferencing a null resetter before changing anything. */
  datatype EndResult = Ended(effect: Effect) | NullResetter

  /** `OnResetEnd`: finalize the reset and clear `inReset`, whatever `inReset` was. */
  function OnResetEnd(s: ManagerState): (r: EndResult)
    ensures r.NullResetter? <==> s.resetter.None?
    ensures r.Ended? ==> r.effect == Effect(s.(inReset := false), [FinalizeReset])
  {
    if s.resetter.None? then NullResetter else Ended(Effect(s.(inReset := false), [FinalizeReset]))
  }

  /** The first three steps of a frame: advance the clock, capture the user, compute the delta. */
  function CaptureFrame(cfg: Config, s: ManagerState, scene: Scene): (r: ManagerState)
    requires cfg.Valid()
    ensures r.simulatedTime == s.simulatedTime + 1.0 / cfg.targetFPS
    ensures r.curr == Capture(cfg.geo, scene)
    // the delta spans from the previous snapshot to this capture
    ensures r.deltaPos == Sub(r.curr.pos, s.prev.pos)
    ensures r.deltaDir == cfg.geo.signedAngle(s.prev.dir, r.curr.dir)
    ensures r == s.(simulatedTime := r.simulatedTime, curr := r.curr, deltaPos := r.deltaPos, deltaDir := r.deltaDir)
  {
    var captured := s.(simulatedTime := s.simulatedTime + 1.0 / cfg.targetFPS, curr := Capture(cfg.geo, scene));
    // CalculateStateChanges
    captured.(deltaPos := Sub(captured.curr.pos, captured.prev.pos), deltaDir := cfg.geo.signedAngle(captured.prev.dir, captured.curr.dir))
  }

  /** Whether a collaborator that can move the user's head or the tracked space ran. */
  predicate MayMoveUser(calls: seq<Call>) {
    InitializeReset in calls || ApplyResetting in calls || ApplyRedirection in calls
  }

  /**
   * One frame's inputs: the scene when the user state is captured, what the
   * resetter answers, and the scene after the strategies have run.
   */
  datatype FrameInput = FrameInput(atCapture: Scene, outOfBounds: bool, resetRequired: bool, afterStrategies: Scene)

  /** The scene the snapshot and the body pose read: unchanged unless a strategy ran. */
  function SnapshotScene(calls: seq<Call>, f: FrameInput): Scene {
    if MayMoveUser(calls) then f.afterStrategies else f.atCapture
  }

  /** A frame runs a collaborator that can move the user iff the backup started a reset or a strategy was applied. */
  lemma FrameMovesUser(inReset: bool, hasResetter: bool, hasRedirector: bool, outOfBounds: bool, resetRequired: bool)
    ensures var backup := BackupCalls(inReset, hasResetter, outOfBounds, resetRequired);
      var dispatch := DispatchCalls(InResetAfterBackup(inReset, hasResetter, outOfBounds, resetRequired), hasResetter, hasRedirector);
      MayMoveUser(backup + dispatch) <==> InitializeReset in backup || dispatch != []
  {
    var backup := BackupCalls(inReset, hasResetter, outOfBounds, resetRequired);
    var dispatch := DispatchCalls(InResetAfterBackup(inReset, hasResetter, outOfBounds, resetRequired), hasResetter, hasRedirector);
    if dispatch != [] {
      assert dispatch[0] in backup + dispatch;
    }
    if InitializeReset in backup {
      var i :| 0 <= i < |backup| && backup[i] == InitializeReset;
      assert (backup + dispatch)[i] == InitializeReset;
    }
  }

  /**
   * `LateUpdate`: advance the clock, capture the user, compute the delta,
   * run the out-of-bounds backup, dispatch to one strategy, snapshot the
   * user and place the body.
   */
  function LateUpdate(cfg: Config, s: ManagerState, f: FrameInput): (r: Effect)
    requires cfg.Valid()
    ensures r.calls == FrameCalls(s.inReset, s.resetter.Some?, s.redirector.Some?, f.outOfBounds, f.resetRequired)
    ensures r.state.simulatedTime == s.simulatedTime + 1.0 / cfg.targetFPS
    // the delta spans from the previous frame's snapshot to this frame's capture
    ensures r.state.curr == Capture(cfg.geo, f.atCapture)
    ensures r.state.deltaPos == Sub(r.state.curr.pos, s.prev.pos)
    ensures r.state.deltaDir == cfg.geo.signedAngle(s.prev.dir, r.state.curr.dir)
    // the snapshot is taken after the strategies ran, so the next delta includes this frame's redirection
    ensures r.state.prev == Capture(cfg.geo, SnapshotScene(r.calls, f))
    ensures r.state.bodyPos == cfg.geo.flattenedPos(SnapshotScene(r.calls, f).head.position)
    // with no strategy run, the snapshot equals the capture
    ensures !MayMoveUser(r.calls) ==> r.state.prev == r.state.curr
    // the backup forces a reset that the resetter requires
    ensures r.state.inReset == InResetAfterBackup(s.inReset, s.resetter.Some?, f.outOfBounds, f.resetRequired)
    ensures r.state.redirector == s.redirector && r.state.resetter == s.resetter && r.state.resetTrigger == s.resetTrigger
  {
    var captured := CaptureFrame(cfg, s, f.atCapture);
    var backup := BackupCalls(s.inReset, s.resetter.Some?, f.outOfBounds, f.resetRequired);
    var inReset := InResetAfterBackup(s.inReset, s.resetter.Some?, f.outOfBounds, f.resetRequired);
    var calls := backup + DispatchCalls(inReset, s.resetter.Some?, s.redirector.Some?);
    var scene := SnapshotScene(calls, f);
    // UpdatePreviousUserState, then the position half of UpdateBodyPose
    Effect(captured.(inReset := inReset, prev := Capture(cfg.geo, scene), bodyPos := cfg.geo.flattenedPos(scene.head.position)), calls)
  }

  /** `GetTime`: the simulated clock with manual time, otherwise the engine's clock. */
  function Time(cfg: Config, s: ManagerState, wallClockTime: real): (t: real)
    // with manual time the engine's clock is ignored; otherwise it is read as is
    ensures cfg.useManualTime ==> t == s.simulatedTime
    ensures !cfg.useManualTime ==> t == wallClockTime
  {
    if cfg.useManualTime then s.simulatedTime else wallClockTime
  }

  /** `GetDeltaTime`: one frame at the target rate with manual time, otherwise the engine's frame time. */
  function DeltaTime(cfg: Config, wallClockDelta: real): (t: real)
    requires cfg.Valid()
    // with manual time, a positive frame time that `targetFPS` frames add up to one second
    ensures cfg.useManualTime ==> t > 0.0 && t * cfg.targetFPS == 1.0
    ensures !cfg.useManualTime ==> t == wallClockDelta
  {
    if cfg.useManualTime then 1.0 / cfg.targetFPS else wallClockDelta
  }

  /** What can happen to the manager: a frame, a reset notification, or a strategy swap. */
  datatype Event =
    | Frame(input: FrameInput)
    | ResetTrigger(resetRequired: bool)
    | ResetEnd
    | RemoveRedirector
    | RemoveResetter
    | UpdateRedirector(redirectorType: string)
    | UpdateResetter(resetterType: string)

  /** The effect of one event; a null-resetter `OnResetEnd` throws before it changes anything. */
  function Apply(cfg: Config, s: ManagerState, e: Event): (r: Effect)
    requires cfg.Valid()
    // a swap replaces its own handle and nothing else; only a new resetter is initialized
    ensures e.RemoveRedirector? ==> r == Effect(s.(redirector := None), [])
    ensures e.RemoveResetter? ==> r == Effect(s.(resetter := None), [])
    ensures e.UpdateRedirector? ==> r == Effect(s.(redirector := Some(Component(e.redirectorType))), [])
    ensures e.UpdateResetter? ==> r == Effect(s.(resetter := Some(Component(e.resetterType))), [ResetterInitialize])
    // only the swaps change the handles, and the reset trigger never changes
    ensures r.state.resetTrigger == s.resetTrigger
    ensures !(e.RemoveRedirector? || e.UpdateRedirector?) ==> r.state.redirector == s.redirector
    ensures !(e.RemoveResetter? || e.UpdateResetter?) ==> r.state.resetter == s.resetter
    // only a frame moves the clock, the user snapshots or the body
    ensures !e.Frame? ==> && r.state.simulatedTime == s.simulatedTime && r.state.curr == s.curr
                          && r.state.prev == s.prev && r.state.bodyPos == s.bodyPos
    ensures ResetterInitialize in r.calls <==> e.UpdateResetter?
    // a reset end finalizes and clears the flag, unless the null resetter throws first
    ensures e.ResetEnd? ==> r == (if s.resetter.Some? then Effect(s.(inReset := false), [FinalizeReset]) else Effect(s, []))
  {
    match e
    case Frame(f) => LateUpdate(cfg, s, f)
    case ResetTrigger(q) => OnResetTrigger(s, q)
    case ResetEnd => (match OnResetEnd(s) case Ended(eff) => eff case NullResetter => Effect(s, []))
    case RemoveRedirector => Effect(s.(redirector := None), [])
    case RemoveResetter => Effect(s.(resetter := None), [])
    case UpdateRedirector(t) => Effect(s.(redirector := Some(Component(t))), [])
    case UpdateResetter(t) => Effect(s.(resetter := Some(Component(t))), [ResetterInitialize])
  }

  /** A sequence of events, with all collaborator calls in order. */
  function Run(cfg: Config, s: ManagerState, events: seq<Event>): Effect
    requires cfg.Valid()
    decreases |events|
  {
    if events == [] then Effect(s, [])
    else
      var first := Apply(cfg, s, events[0]);
      var rest := Run(cfg, first.state, events[1..]);
      Effect(rest.state, first.calls + rest.calls)
  }

  /** The number of frames among `events`. */
  function FrameCount(events: seq<Event>): nat
    decreases |events|
  {
    if events == [] then 0 else (if events[0].Frame? then 1 else 0) + FrameCount(events[1..])
  }

  /** The time `n` frames of `dt` each add to a clock, one frame at a time. */
  function Elapsed(n: nat, dt: real): real {
    if n == 0 then 0.0 else Elapsed(n - 1, dt) + dt
  }

  /** Adding up `n` frame times gives `n` times the frame time. */
  lemma {:induction false} ElapsedIsProduct(n: nat, dt: real)
    ensures Elapsed(n, dt) == n as real * dt
  {
    if n > 0 {
      ElapsedIsProduct(n - 1, dt);
    }
  }

  /** Only a frame moves the clock, by one frame's time. */
  lemma ApplyAdvancesClock(cfg: Config, s: ManagerState, e: Event)
    requires cfg.Valid()
    ensures Apply(cfg, s, e).state.simulatedTime == s.simulatedTime + (if e.Frame? then 1.0 / cfg.targetFPS else 0.0)
  {
  }

  /**
   * The simulated clock counts frames: after any sequence of events it has
   * advanced by exactly `1 / targetFPS` per frame, and nothing else moves it.
   */
  lemma {:induction false} ClockCountsFrames(cfg: Config, s: ManagerState, events: seq<Event>)
    requires cfg.Valid()
    ensures Run(cfg, s, events).state.simulatedTime == s.simulatedTime + Elapsed(FrameCount(events), 1.0 / cfg.targetFPS)
    decreases |events|
  {
    if events != [] {
      var first := Apply(cfg, s, events[0]);
      var dt := 1.0 / cfg.targetFPS;
      ApplyAdvancesClock(cfg, s, events[0]);
      ClockCountsFrames(cfg, first.state, events[1..]);
      var n := FrameCount(events[1..]);
      assert Run(cfg, s, events).state == Run(cfg, first.state, events[1..]).state;
      if events[0].Frame? {
        assert FrameCount(events) == n + 1 && Elapsed(n + 1, dt) == Elapsed(n, dt) + dt;
      } else {
        assert FrameCount(events) == n;
      }
    }
  }

  lemma ApplyKeepsResetProtocol(cfg: Config, s: ManagerState, e: Event)
    requires cfg.Valid()
    ensures ReplayReset(s.inReset, Apply(cfg, s, e).calls) == Some(Apply(cfg, s, e).state.inReset)
  {
    if e.Frame? {
      FrameKeepsResetProtocol(s.inReset, s.resetter.Some?, s.redirector.Some?, e.input.outOfBounds, e.input.resetRequired);
    }
  }

  /**
   * The reset protocol holds over any interleaving of frames, reset
   * notifications and strategy swaps: a reset is never initialized twice
   * without a finalization in between, `ApplyResetting` runs only inside a
   * reset, and the `inReset` flag is exactly what the call log says.
   */
  lemma {:induction false} RunKeepsResetProtocol(cfg: Config, s: ManagerState, events: seq<Event>)
    requires cfg.Valid()
    ensures ReplayReset(s.inReset, Run(cfg, s, events).calls) == Some(Run(cfg, s, events).state.inReset)
    decreases |events|
  {
    if events != [] {
      var first := Apply(cfg, s, events[0]);
      ApplyKeepsResetProtocol(cfg, s, events[0]);
      RunKeepsResetProtocol(cfg, first.state, events[1..]);
      ReplayResetAppend(s.inReset, first.calls, Run(cfg, first.state, events[1..]).calls);
    }
  }

  /**
   * Repeated reset notifications initialize at most one reset: none when a
   * reset is already under way or there is no resetter, and otherwise one
   * exactly when some notification finds the reset required. Nothing but the
   * flag changes.
   */
  lemma {:induction false} TriggersInitializeAtMostOnce(cfg: Config, s: ManagerState, events: seq<Event>)
    requires cfg.Valid()
    requires forall i | 0 <= i < |events| :: events[i].ResetTrigger?
    ensures var r := Run(cfg, s, events);
      && Count(InitializeReset, r.calls) == (if r.state.inReset && !s.inReset then 1 else 0)
      && (r.state.inReset <==> s.inReset || (s.resetter.Some? && exists i | 0 <= i < |events| :: events[i].resetRequired))
      && r.state == s.(inReset := r.state.inReset)
    decreases |events|
  {
    if events != [] {
      var first := OnResetTrigger(s, events[0].resetRequired);
      assert Apply(cfg, s, events[0]) == first;
      TriggersInitializeAtMostOnce(cfg, first.state, events[1..]);
      CountAppend(InitializeReset, first.calls, Run(cfg, first.state, events[1..]).calls);
      assert (exists i | 0 <= i < |events| :: events[i].resetRequired) <==>
        events[0].resetRequired || exists i | 0 <= i < |events[1..]| :: events[1..][i].resetRequired
      by {
        if exists i | 0 <= i < |events| :: events[i].resetRequired {
          var i :| 0 <= i < |events| && events[i].resetRequired;
          if i > 0 { assert events[1..][i - 1].resetRequired; }
        }
      }
    }
  }

  /**
   * With manual time the two clocks agree: after `Start` and any sequence of
   * events, `GetTime` is the sum of one `GetDeltaTime` per frame, whatever
   * the engine's clocks say.
   */
  lemma ManualTimeCountsFrames(cfg: Config, s: ManagerState, scene: Scene, events: seq<Event>, wallClockTime: real, wallClockDelta: real)
    requires cfg.Valid() && cfg.useManualTime
    ensures Time(cfg, Run(cfg, Start(cfg.geo, s, scene).state, events).state, wallClockTime) ==
      Elapsed(FrameCount(events), DeltaTime(cfg, wallClockDelta))
  {
    ClockCountsFrames(cfg, Start(cfg.geo, s, scene).state, events);
  }
}
