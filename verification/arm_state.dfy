/** The published arm state of `state.py`: its constructor's checks, and what the
    in-memory arm publishes. */
module ArmStates {
  import opened Basics
  import opened ArmMotion
  import opened Poses
  import opened Quaternions
  import opened Vectors

  datatype ArmState = ArmState(
    q: seq<real>,
    dq: seq<real>,
    eePose: Pose,
    openFrac: real,
    railPosM: Option<real>,
    errorCode: int,
    warnCode: int,
    mode: int,
    state: int,
    stale: bool,
    tMono: real,
    wallclockNs: int)

  datatype StateError = QShape | DqShape | NeedsRail | RailDiffers | NoRail | FractionRange

  /** The checks made when a state is built, in their order, after those of its gripper. */
  function Checked(s: ArmState): Result<ArmState, StateError> {
    if !(0.0 <= s.openFrac <= 1.0) then Err(FractionRange)
    else if |s.q| != 7 && |s.q| != 8 then Err(QShape)
    else if |s.dq| != |s.q| then Err(DqShape)
    else if |s.q| == 8 then
      if s.railPosM.None? then Err(NeedsRail)
      else if Abs(s.railPosM.value - s.q[7]) > 0.000000001 then Err(RailDiffers)
      else Ok(s)
    else if s.railPosM.Some? then Err(NoRail)
    else Ok(s)
  }

  /** `int(x)`. */
  function Truncate(x: real): int { if x >= 0.0 then x.Floor else -((-x).Floor) }

  type ForwardKinematics = seq<real> -> Pose

  function Published(a: Arm, fk: Option<ForwardKinematics>): ArmState
    requires Shaped(a)
  {
    ArmState(
      a.q, a.dq, if fk.Some? then fk.value(a.q) else IDENTITY_POSE, a.openFrac,
      if a.hasRail then Some(a.q[7]) else None,
      a.errorCode, a.warnCode, 1, 0, false, a.time, Truncate(a.time * 1000000000.0))
  }

  /** What every call keeps: the hidden rail velocity and a clock that has not run back. */
  predicate Sound(a: Arm) {
    Shaped(a) && (a.hasRail ==> a.dq[7] == 0.0) && a.time >= 0.0
  }

  lemma {:induction false} RunStaysSound(a: Arm, calls: seq<Call>)
    requires Sound(a)
    ensures Sound(Run(a, calls)) && Run(a, calls).time >= a.time
    decreases |calls|
  {
    if calls != [] { RunStaysSound(After(a, calls[0]), calls[1..]); }
  }

  /** After any calls on a new arm of either kind, at any speeds, publishing succeeds. The
      rail position is exactly that of the rail slot, its velocity is zero, there is one
      only with a rail, and time has not gone back. */
  lemma AlwaysPublishable(
    hasRail: bool, q0: Option<seq<real>>, jointSpeed: real, railSpeed: real, calls: seq<Call>,
    fk: Option<ForwardKinematics>)
    requires NewArm(hasRail, q0, jointSpeed, railSpeed).Ok?
    ensures var s := Published(Run(NewArm(hasRail, q0, jointSpeed, railSpeed).value, calls), fk);
      && Checked(s) == Ok(s)
      && |s.q| == Dof(hasRail)
      && s.railPosM == (if hasRail then Some(s.q[7]) else None)
      && (hasRail ==> s.dq[7] == 0.0)
      && s.tMono >= 0.0 && s.wallclockNs >= 0
  {
    RunStaysSound(NewArm(hasRail, q0, jointSpeed, railSpeed).value, calls);
  }

  /** The call leaves error codes and gripper opening alone. */
  predicate Motion(call: Call) { !call.InjectError? && !call.ClearErrors? && !call.CommandGripper? }

  lemma {:induction false} MotionKeeps(a: Arm, calls: seq<Call>)
    requires Shaped(a) && forall i :: 0 <= i < |calls| ==> Motion(calls[i])
    ensures SameReports(a, Run(a, calls))
    decreases |calls|
  {
    if calls != [] {
      assert Motion(calls[0]);
      MotionKeeps(After(a, calls[0]), calls[1..]);
    }
  }

  predicate SameReports(a: Arm, b: Arm) {
    b.errorCode == a.errorCode && b.warnCode == a.warnCode && b.openFrac == a.openFrac
  }

  /** What a call sets in the reports stays published whatever moves afterwards: injected
      codes until they are cleared or replaced, and the last gripper command until the next. */
  lemma ReportsLatched(a: Arm, call: Call, calls: seq<Call>, fk: Option<ForwardKinematics>)
    requires Shaped(a) && forall i :: 0 <= i < |calls| ==> Motion(calls[i])
    ensures var s := Published(Run(After(a, call), calls), fk);
      && s.errorCode == (if call.InjectError? then call.code else if call.ClearErrors? then 0 else a.errorCode)
      && s.warnCode == (if call.InjectError? then call.warn else if call.ClearErrors? then 0 else a.warnCode)
      && s.openFrac == (if call.CommandGripper? then call.cmd.openFrac else a.openFrac)
  {
    MotionKeeps(After(a, call), calls);
    if Motion(call) { MotionKeeps(a, [call]); OneCall(a, call); }
  }

  lemma OneCall(a: Arm, call: Call)
    requires Shaped(a)
    ensures Run(a, [call]) == After(a, call)
  {
    assert [call][1..] == [];
    assert Run(After(a, call), []) == After(a, call);
  }

  // --------------------------------------------------------- where the arm is said to be

  /** A state is accepted exactly when its gripper opening is a fraction, it has 7 or 8
      positions and as many velocities, and a rail position within 1e-9 of the eighth with 8
      and none with 7. */
  lemma AcceptedExactly(s: ArmState)
    ensures Checked(s).Ok? ==> Checked(s) == Ok(s)
    ensures Checked(s).Ok? <==>
      && 0.0 <= s.openFrac <= 1.0
      && (|s.q| == 7 || |s.q| == 8) && |s.dq| == |s.q|
      && (|s.q| == 7 ==> s.railPosM == None)
      && (|s.q| == 8 ==> s.railPosM.Some? && -0.000000001 <= s.railPosM.value - s.q[7] <= 0.000000001)
  {}

  /** A new arm is published where it was put, at rest, at time zero and without errors. */
  lemma NewArmPublished(hasRail: bool, q0: seq<real>, jointSpeed: real, railSpeed: real, fk: Option<ForwardKinematics>)
    requires |q0| == if hasRail then 8 else 7
    ensures NewArm(hasRail, Some(q0), jointSpeed, railSpeed).Ok?
    ensures var s := Published(NewArm(hasRail, Some(q0), jointSpeed, railSpeed).value, fk);
      && s.q == q0 && (forall i :: 0 <= i < |q0| ==> s.dq[i] == 0.0)
      && s.tMono == 0.0 && s.errorCode == 0 && s.warnCode == 0 && s.openFrac == 1.0
  {
    NewArmRests(hasRail, Some(q0), jointSpeed, railSpeed);
  }

  /** What is published beside the position goes with it: the rail slot as the rail position,
      its kinematics as the pose, a ready controller in servo mode, a fresh report and the
      clock in whole nanoseconds. */
  lemma PublishedWith(a: Arm, fk: Option<ForwardKinematics>)
    requires Shaped(a) && a.time >= 0.0
    ensures var s := Published(a, fk);
      && |s.q| == (if a.hasRail then 8 else 7)
      && s.railPosM == (if a.hasRail then Some(s.q[7]) else None)
      && s.eePose == (if fk.Some? then fk.value(s.q) else Pose(V3(0.0, 0.0, 0.0), Quat(1.0, 0.0, 0.0, 0.0)))
      && s.mode == 1 && s.state == 0 && !s.stale
      && s.wallclockNs as real <= s.tMono * 1000000000.0 < s.wallclockNs as real + 1.0
  {}

  /** Only a step moves what is published: no command, stop, connection or injected error
      changes position, velocity, pose or time. */
  lemma OnlyStepsMove(a: Arm, call: Call, fk: Option<ForwardKinematics>)
    requires Shaped(a) && !call.Step?
    ensures var s, t := Published(a, fk), Published(After(a, call), fk);
      t.q == s.q && t.dq == s.dq && t.tMono == s.tMono && t.railPosM == s.railPosM && t.eePose == s.eePose
  {}

  /** Published after a step are the time that has passed and the velocity of the move just
      made, zero for the rail. */
  lemma StepPublished(a: Arm, dt: real, i: nat, fk: Option<ForwardKinematics>)
    requires Shaped(a) && dt > 0.0 && i < |a.q|
    ensures var s, t := Published(a, fk), Published(After(a, Call.Step(dt)), fk);
      && t.tMono == s.tMono + dt
      && (if a.hasRail && i == 7 then t.dq[i] == 0.0 else t.dq[i] == (t.q[i] - s.q[i]) / dt)
  {}

  /** Published after any steps is a position nearer to the target by the speed limit times
      the time, neither short of it nor beyond the target. */
  lemma PublishedFollows(a: Arm, dts: seq<real>, i: nat, fk: Option<ForwardKinematics>)
    requires Shaped(a) && AllPositive(dts) && i < |a.q| && Speed(a, i) >= 0.0
    ensures var s := Published(Run(a, Steps(dts)), fk);
      && s.tMono == a.time + Sum(dts)
      && Abs(a.target[i] - s.q[i]) == Max(0.0, Abs(a.target[i] - a.q[i]) - Reach(a, i, Sum(dts)))
      && Min(a.q[i], a.target[i]) <= s.q[i] <= Max(a.q[i], a.target[i])
  {
    DistanceAlways(a, dts, i);
    PublishedPosition(Run(a, Steps(dts)), fk);
  }

  lemma PublishedPosition(a: Arm, fk: Option<ForwardKinematics>)
    requires Shaped(a)
    ensures Published(a, fk).q == a.q && Published(a, fk).tMono == a.time
  {}

  /** A whole journey: put at `q0`, commanded to `goal`, stepped: each joint is published at
      max(0, |goal - q0| - speed * T) from its goal. */
  lemma Journey(hasRail: bool, q0: seq<real>, jointSpeed: real, railSpeed: real, goal: seq<real>, dts: seq<real>,
                i: nat, fk: Option<ForwardKinematics>)
    requires |q0| == |goal| == (if hasRail then 8 else 7) && AllPositive(dts) && i < 7 && jointSpeed >= 0.0
    ensures NewArm(hasRail, Some(q0), jointSpeed, railSpeed).Ok?
    ensures var a := After(NewArm(hasRail, Some(q0), jointSpeed, railSpeed).value, CommandJoints(goal));
      var s := Published(Run(a, Steps(dts)), fk);
      && s.tMono == Sum(dts)
      && Abs(goal[i] - s.q[i]) == Max(0.0, Abs(goal[i] - q0[i]) - Reach(a, i, Sum(dts)))
  {
    NewArmRests(hasRail, Some(q0), jointSpeed, railSpeed);
    var put := NewArm(hasRail, Some(q0), jointSpeed, railSpeed).value;
    TargetsMean(put, goal, 0.0);
    PublishedFollows(After(put, CommandJoints(goal)), dts, i, fk);
  }
}
