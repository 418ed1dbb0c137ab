/** The motion of the in-memory arm of `testing.py` on values: targets, the rate-limited
    step, and what runs of calls keep. */
module ArmMotion {
  import opened Basics

  /** `se3.RAIL_TRAVEL_M`. */
  const RAIL_TRAVEL := 0.65

  datatype ArmError = WrongShape | RailUnavailable | BadTimeStep

  type Fraction = f: real | 0.0 <= f <= 1.0 witness 0.0

  /** A gripper command, validated when it was made. */
  datatype GripperCommand = GripperCommand(openFrac: Fraction, force: Option<Fraction>, speed: Option<Fraction>)

  datatype Arm = Arm(
    hasRail: bool,
    jointSpeed: real,
    railSpeed: real,
    q: seq<real>,
    dq: seq<real>,
    target: seq<real>,
    time: real,
    openFrac: real,
    errorCode: int,
    warnCode: int,
    connected: bool,
    gripperCommands: seq<GripperCommand>)

  datatype Call =
    | Connect
    | Disconnect
    | Stop
    | CommandJoints(q: seq<real>)
    | CommandGripper(cmd: GripperCommand)
    | CommandRail(pos: real)
    | InjectError(code: int, warn: int)
    | ClearErrors
    | Step(dt: real)

  function Dof(hasRail: bool): nat { if hasRail then 8 else 7 }

  function Min(x: real, y: real): real { if x <= y then x else y }

  function Max(x: real, y: real): real { if x >= y then x else y }

  function Abs(x: real): real { if x >= 0.0 then x else -x }

  /** `np.clip(x, -d, d)`, which gives `d` when the bounds cross. */
  function Clip(x: real, d: real): real { Min(Max(x, -d), d) }

  /** One joint's move from `p` toward `t` by at most `d`. */
  function Slew(p: real, t: real, d: real): real { p + Clip(t - p, d) }

  function ClampRail(x: real): real { Min(Max(x, 0.0), RAIL_TRAVEL) }

  function Zeros(n: nat): seq<real> { seq(n, i => 0.0) }

  predicate Shaped(a: Arm) {
    && |a.q| == |a.dq| == |a.target| == Dof(a.hasRail)
    && 0.0 <= a.openFrac <= 1.0
  }

  predicate SameBuild(a: Arm, b: Arm) {
    a.hasRail == b.hasRail && a.jointSpeed == b.jointSpeed && a.railSpeed == b.railSpeed
  }

  /** The constructor. */
  function NewArm(hasRail: bool, q0: Option<seq<real>>, jointSpeed: real, railSpeed: real): Result<Arm, ArmError> {
    var q := if q0.None? then Zeros(Dof(hasRail)) else q0.value;
    if |q| != Dof(hasRail) then Err(WrongShape)
    else Ok(Arm(hasRail, jointSpeed, railSpeed, q, Zeros(Dof(hasRail)), q, 0.0, 1.0, 0, 0, false, []))
  }

  function JointTarget(hasRail: bool, q: seq<real>): seq<real>
    requires |q| == Dof(hasRail)
  {
    if hasRail then q[7 := ClampRail(q[7])] else q
  }

  /** Each joint's speed limit. */
  function Speed(a: Arm, i: nat): real { if a.hasRail && i == 7 then a.railSpeed else a.jointSpeed }

  /** The farthest a joint moves in `dt`. */
  function Reach(a: Arm, i: nat, dt: real): real { Speed(a, i) * dt }

  function StepQ(a: Arm, dt: real): (r: seq<real>)
    requires Shaped(a)
    ensures |r| == |a.q|
  {
    seq(|a.q|, i requires 0 <= i < |a.q| => Slew(a.q[i], a.target[i], Reach(a, i, dt)))
  }

  function Rate(from: real, to: real, dt: real): real
    requires dt > 0.0
  {
    (to - from) / dt
  }

  /** The velocity of the move to `q`; the rail's is not observable. */
  function StepDq(a: Arm, q: seq<real>, dt: real): (r: seq<real>)
    requires Shaped(a) && |q| == |a.q| && dt > 0.0
    ensures |r| == |q|
  {
    seq(|q|, i requires 0 <= i < |q| => if a.hasRail && i == 7 then 0.0 else Rate(a.q[i], q[i], dt))
  }

  function StepArm(a: Arm, dt: real): (r: Arm)
    requires Shaped(a) && dt > 0.0
    ensures Shaped(r) && SameBuild(a, r) && r.target == a.target
  {
    var q := StepQ(a, dt);
    a.(q := q, dq := StepDq(a, q, dt), time := a.time + dt)
  }

  /** One call: the new arm, or why it was refused. */
  function Do(a: Arm, call: Call): (r: Result<Arm, ArmError>)
    requires Shaped(a)
    ensures r.Ok? ==> Shaped(r.value) && SameBuild(a, r.value)
  {
    match call
    case Connect => Ok(a.(connected := true))
    case Disconnect => Ok(a.(connected := false))
    case Stop => Ok(a.(target := a.q))
    case CommandJoints(q) =>
      if |q| != Dof(a.hasRail) then Err(WrongShape) else Ok(a.(target := JointTarget(a.hasRail, q)))
    case CommandGripper(cmd) =>
      Ok(a.(openFrac := cmd.openFrac, gripperCommands := a.gripperCommands + [cmd]))
    case CommandRail(pos) =>
      if !a.hasRail then Err(RailUnavailable) else Ok(a.(target := a.target[7 := ClampRail(pos)]))
    case InjectError(code, warn) => Ok(a.(errorCode := code, warnCode := warn))
    case ClearErrors => Ok(a.(errorCode := 0, warnCode := 0))
    case Step(dt) => if dt <= 0.0 then Err(BadTimeStep) else Ok(StepArm(a, dt))
  }

  /** A refused call changes nothing. */
  function After(a: Arm, call: Call): (r: Arm)
    requires Shaped(a)
    ensures Shaped(r) && SameBuild(a, r)
  {
    match Do(a, call)
    case Ok(b) => b
    case Err(_) => a
  }

  function Run(a: Arm, calls: seq<Call>): (r: Arm)
    requires Shaped(a)
    ensures Shaped(r) && SameBuild(a, r)
    decreases |calls|
  {
    if calls == [] then a else Run(After(a, calls[0]), calls[1..])
  }

  // ------------------------------------------------------------------- one joint

  /** Moving by `d` and then by `e` is moving by `d + e`, when neither opposes the other. */
  lemma SlewTwice(p: real, t: real, d: real, e: real)
    requires (d >= 0.0 && e >= 0.0) || (d <= 0.0 && e <= 0.0)
    ensures Slew(Slew(p, t, d), t, e) == Slew(p, t, d + e)
  {
  }

  /** Never past the target and never back. */
  lemma SlewApproaches(p: real, t: real, d: real)
    requires d >= 0.0
    ensures Abs(t - Slew(p, t, d)) == Max(0.0, Abs(t - p) - d)
    ensures Min(p, t) <= Slew(p, t, d) <= Max(p, t)
    ensures Abs(Slew(p, t, d) - p) == Min(Abs(t - p), d)
  {
  }

  lemma TravelSigns(v: real, x: real, y: real)
    requires x > 0.0 && y > 0.0
    ensures v * x + v * y == v * (x + y)
    ensures (v * x >= 0.0 && v * y >= 0.0) || (v * x <= 0.0 && v * y <= 0.0)
    ensures v >= 0.0 ==> v * x >= 0.0 && v * y >= 0.0
  {
  }

  // --------------------------------------------------------------- runs of steps

  predicate SameButVelocity(a: Arm, b: Arm) { a.(dq := b.dq) == b }

  lemma StepAt(a: Arm, dt: real, i: nat)
    requires Shaped(a) && i < |a.q|
    ensures StepQ(a, dt)[i] == Slew(a.q[i], a.target[i], Reach(a, i, dt))
  {
  }

  lemma ReachAdds(a: Arm, i: nat, x: real, y: real)
    requires x > 0.0 && y > 0.0
    ensures var d, e := Reach(a, i, x), Reach(a, i, y);
      && d + e == Reach(a, i, x + y)
      && ((d >= 0.0 && e >= 0.0) || (d <= 0.0 && e <= 0.0))
      && (Speed(a, i) >= 0.0 ==> d >= 0.0)
  {
    TravelSigns(Speed(a, i), x, y);
  }

  lemma StepTwiceAt(a: Arm, x: real, y: real, i: nat)
    requires Shaped(a) && x > 0.0 && y > 0.0 && i < |a.q|
    ensures StepQ(StepArm(a, x), y)[i] == StepQ(a, x + y)[i]
  {
    var b := StepArm(a, x);
    ReachAdds(a, i, x, y);
    StepAt(a, x, i);
    StepAt(b, y, i);
    StepAt(a, x + y, i);
    SlewTwice(a.q[i], a.target[i], Reach(a, i, x), Reach(a, i, y));
    SameReach(a, b, i, y);
  }

  lemma SameReach(a: Arm, b: Arm, i: nat, dt: real)
    requires SameBuild(a, b)
    ensures Reach(a, i, dt) == Reach(b, i, dt)
  {
  }

  /** Two steps toward a target are one step of the summed time, at any speeds. */
  lemma StepTwice(a: Arm, x: real, y: real)
    requires Shaped(a) && x > 0.0 && y > 0.0
    ensures SameButVelocity(StepArm(StepArm(a, x), y), StepArm(a, x + y))
  {
    forall i | 0 <= i < |a.q| ensures StepQ(StepArm(a, x), y)[i] == StepQ(a, x + y)[i] {
      StepTwiceAt(a, x, y, i);
    }
    assert StepQ(StepArm(a, x), y) == StepQ(a, x + y);
  }

  function Sum(dts: seq<real>): real { if dts == [] then 0.0 else dts[0] + Sum(dts[1..]) }

  predicate AllPositive(dts: seq<real>) { forall i :: 0 <= i < |dts| ==> dts[i] > 0.0 }

  function Steps(dts: seq<real>): seq<Call> { seq(|dts|, i requires 0 <= i < |dts| => Call.Step(dts[i])) }

  lemma {:induction false} SumPositive(dts: seq<real>)
    requires AllPositive(dts)
    ensures Sum(dts) >= 0.0 && (dts != [] ==> Sum(dts) > 0.0)
  {
    if dts != [] { SumPositive(dts[1..]); }
  }

  /** However the time is cut into steps, position, target and time come out as from one
      step of the whole. */
  lemma {:induction false} StepsAreOneStep(a: Arm, dts: seq<real>)
    requires Shaped(a) && dts != [] && AllPositive(dts)
    ensures Sum(dts) > 0.0
    ensures SameButVelocity(Run(a, Steps(dts)), StepArm(a, Sum(dts)))
    decreases |dts|
  {
    SumPositive(dts);
    var b := StepArm(a, dts[0]);
    assert Steps(dts)[0] == Call.Step(dts[0]) && Steps(dts)[1..] == Steps(dts[1..]);
    assert Run(a, Steps(dts)) == Run(b, Steps(dts[1..]));
    if |dts| == 1 {
      assert Sum(dts[1..]) == 0.0;
      assert Run(b, Steps(dts[1..])) == b;
    } else {
      StepsAreOneStep(b, dts[1..]);
      StepTwice(a, dts[0], Sum(dts[1..]));
    }
  }

  /** After total time T toward a fixed target each joint's distance is
      max(0, d0 - speed * T), and it has passed neither its start nor its target. */
  lemma DistanceLaw(a: Arm, dts: seq<real>, i: nat)
    requires Shaped(a) && dts != [] && AllPositive(dts) && i < |a.q| && Speed(a, i) >= 0.0
    ensures var b := Run(a, Steps(dts));
      && b.target == a.target && b.time == a.time + Sum(dts)
      && Abs(a.target[i] - b.q[i]) == Max(0.0, Abs(a.target[i] - a.q[i]) - Reach(a, i, Sum(dts)))
      && Min(a.q[i], a.target[i]) <= b.q[i] <= Max(a.q[i], a.target[i])
  {
    StepsAreOneStep(a, dts);
    StepDistance(a, Sum(dts), i);
    SameParts(Run(a, Steps(dts)), StepArm(a, Sum(dts)));
  }

  lemma SameParts(a: Arm, b: Arm)
    requires SameButVelocity(a, b)
    ensures a.q == b.q && a.target == b.target && a.time == b.time
  {
  }

  /** And before any step there is no travel. */
  lemma DistanceAlways(a: Arm, dts: seq<real>, i: nat)
    requires Shaped(a) && AllPositive(dts) && i < |a.q| && Speed(a, i) >= 0.0
    ensures var b := Run(a, Steps(dts));
      && b.target == a.target && b.time == a.time + Sum(dts)
      && Abs(a.target[i] - b.q[i]) == Max(0.0, Abs(a.target[i] - a.q[i]) - Reach(a, i, Sum(dts)))
      && Min(a.q[i], a.target[i]) <= b.q[i] <= Max(a.q[i], a.target[i])
  {
    if dts == [] {
      assert Steps(dts) == [] && Run(a, []) == a;
      ReachZero(a, i);
    } else {
      DistanceLaw(a, dts, i);
    }
  }

  lemma ReachZero(a: Arm, i: nat)
    ensures Reach(a, i, 0.0) == 0.0
  {}

  /** A joint's reach is the joint speed times the time, the rail's the rail speed. */
  lemma ReachMeans(a: Arm, i: nat, t: real)
    ensures Reach(a, i, t) == if a.hasRail && i == 7 then a.railSpeed * t else a.jointSpeed * t
  {}

  lemma StepDistance(a: Arm, dt: real, i: nat)
    requires Shaped(a) && dt > 0.0 && i < |a.q| && Speed(a, i) >= 0.0
    ensures var q, d := StepArm(a, dt).q, Reach(a, i, dt);
      && d >= 0.0
      && Abs(a.target[i] - q[i]) == Max(0.0, Abs(a.target[i] - a.q[i]) - d)
      && Min(a.q[i], a.target[i]) <= q[i] <= Max(a.q[i], a.target[i])
      && Abs(q[i] - a.q[i]) <= d
  {
    ReachAdds(a, i, dt, dt);
    StepAt(a, dt, i);
    SlewApproaches(a.q[i], a.target[i], Reach(a, i, dt));
  }

  /** A step reports the velocity it moved with, within the limit; the rail's is hidden. */
  lemma VelocityReported(a: Arm, dt: real, i: nat)
    requires Shaped(a) && dt > 0.0 && i < |a.q| && Speed(a, i) >= 0.0
    ensures var b := StepArm(a, dt);
      && Abs(b.dq[i]) <= Speed(a, i)
      && (if a.hasRail && i == 7 then b.dq[i] == 0.0 else b.dq[i] * dt == b.q[i] - a.q[i])
  {
    var b := StepArm(a, dt);
    var v := Speed(a, i);
    StepDistance(a, dt, i);
    if !(a.hasRail && i == 7) {
      Quotient(b.q[i] - a.q[i], dt, v, b.dq[i]);
    }
  }

  lemma Quotient(x: real, dt: real, v: real, r: real)
    requires dt > 0.0 && r == x / dt && Abs(x) <= v * dt
    ensures r * dt == x && Abs(r) <= v
  {
    if r > v { assert r * dt > v * dt; }
    if -r > v { assert (-r) * dt > v * dt; }
  }

  // ------------------------------------------------------------------------ rail

  predicate InTravel(x: real) { 0.0 <= x <= 0.65 }

  predicate RailInside(a: Arm)
    requires Shaped(a)
  {
    a.hasRail ==> InTravel(a.q[7]) && InTravel(a.target[7])
  }

  lemma CallKeepsRail(a: Arm, call: Call)
    requires Shaped(a) && RailInside(a) && a.railSpeed >= 0.0
    ensures RailInside(After(a, call))
  {
    if call.Step? && call.dt > 0.0 && a.hasRail {
      StepDistance(a, call.dt, 7);
    }
  }

  lemma {:induction false} RunKeepsRail(a: Arm, calls: seq<Call>)
    requires Shaped(a) && RailInside(a) && a.railSpeed >= 0.0
    ensures RailInside(Run(a, calls))
    decreases |calls|
  {
    if calls != [] {
      CallKeepsRail(a, calls[0]);
      RunKeepsRail(After(a, calls[0]), calls[1..]);
    }
  }

  /** Whatever is called, in whatever order. */
  ghost predicate RailAlwaysInside(a: Arm)
    requires Shaped(a)
  {
    forall calls :: a.hasRail ==> InTravel(Run(a, calls).q[7])
  }

  lemma BackwardsLeaves(a: Arm)
    requires Shaped(a) && a.hasRail && RailInside(a) && a.railSpeed < 0.0
    ensures !RailAlwaysInside(a)
  {
    var dt := 1.0 / (-a.railSpeed);
    assert dt > 0.0 && a.railSpeed * dt == -1.0;
    var calls := [Call.Step(dt)];
    assert Run(a, calls) == StepArm(a, dt) by {
      assert calls[1..] == [];
      assert Run(StepArm(a, dt), calls[1..]) == StepArm(a, dt);
    }
    StepAt(a, dt, 7);
    assert StepArm(a, dt).q[7] == Slew(a.q[7], a.target[7], -1.0) < 0.0;
  }

  /** A new arm's rail stays within its travel under every sequence of calls exactly when
      it starts there and its speed is not negative. */
  lemma RailSafeExactly(q0: Option<seq<real>>, jointSpeed: real, railSpeed: real)
    requires NewArm(true, q0, jointSpeed, railSpeed).Ok?
    ensures var a := NewArm(true, q0, jointSpeed, railSpeed).value;
      RailAlwaysInside(a) <==> InTravel(a.q[7]) && railSpeed >= 0.0
  {
    var a := NewArm(true, q0, jointSpeed, railSpeed).value;
    if InTravel(a.q[7]) && railSpeed >= 0.0 {
      forall calls ensures InTravel(Run(a, calls).q[7]) { RunKeepsRail(a, calls); }
    }
    if RailAlwaysInside(a) {
      assert Run(a, []) == a;
      assert InTravel(Run(a, []).q[7]);
      if railSpeed < 0.0 { BackwardsLeaves(a); }
    }
  }

  lemma StoppedStays(a: Arm, dts: seq<real>)
    requires Shaped(a) && AllPositive(dts) && a.jointSpeed >= 0.0 && (a.hasRail ==> a.railSpeed >= 0.0)
    ensures Run(After(a, Stop), Steps(dts)).q == a.q
  {
    var b := After(a, Stop);
    if dts != [] {
      forall i | 0 <= i < |a.q| ensures Run(b, Steps(dts)).q[i] == a.q[i] { DistanceLaw(b, dts, i); }
    }
  }

  /** With a negative speed, one step of one second moves the joint off its target. */
  lemma StoppedDrifts(a: Arm, i: nat)
    requires Shaped(a) && i < |a.q| && Speed(a, i) < 0.0
    ensures Run(After(a, Stop), Steps([1.0])).q != a.q
  {
    var b := After(a, Stop);
    assert Steps([1.0]) == [Call.Step(1.0)] && [Call.Step(1.0)][1..] == [];
    assert Run(StepArm(b, 1.0), []) == StepArm(b, 1.0);
    assert Run(b, Steps([1.0])) == StepArm(b, 1.0);
    StepAt(b, 1.0, i);
    assert StepArm(b, 1.0).q[i] == a.q[i] + Speed(a, i);
  }

  /** After a stop no sequence of steps moves the arm exactly when its joint speed, and with
      a rail the rail's, is not negative. Stopping again changes nothing. */
  lemma StopHolds(a: Arm)
    requires Shaped(a)
    ensures (forall dts :: AllPositive(dts) ==> Run(After(a, Stop), Steps(dts)).q == a.q)
       <==> a.jointSpeed >= 0.0 && (a.hasRail ==> a.railSpeed >= 0.0)
    ensures After(After(a, Stop), Stop) == After(a, Stop)
  {
    if a.jointSpeed >= 0.0 && (a.hasRail ==> a.railSpeed >= 0.0) {
      forall dts | AllPositive(dts) ensures Run(After(a, Stop), Steps(dts)).q == a.q { StoppedStays(a, dts); }
    } else {
      assert AllPositive([1.0]);
      StoppedDrifts(a, if a.jointSpeed < 0.0 then 0 else 7);
    }
  }

  /** No point of the rail's travel is nearer to what was asked for than what is targeted. */
  ghost predicate NearestOnRail(asked: real, targeted: real) {
    InTravel(targeted) && forall x :: InTravel(x) ==> Abs(asked - targeted) <= Abs(asked - x)
  }

  /** A joint command sets each joint's target, and the rail's to the nearest point of its
      travel; a rail command sets only that. Neither moves the arm. */
  lemma TargetsMean(a: Arm, q: seq<real>, pos: real)
    requires Shaped(a) && |q| == Dof(a.hasRail)
    ensures var b := After(a, CommandJoints(q));
      && b == a.(target := b.target)
      && (forall i :: 0 <= i < 7 ==> b.target[i] == q[i])
      && (a.hasRail ==> NearestOnRail(q[7], b.target[7]))
    ensures var b := After(a, CommandRail(pos));
      && b == a.(target := b.target)
      && (forall i :: 0 <= i < 7 ==> b.target[i] == a.target[i])
      && (a.hasRail ==> NearestOnRail(pos, b.target[7]))
  {
  }

  /** Refused are exactly a constructor argument or joint command of the wrong length, a rail
      command without a rail, and a time step that is not positive. */
  lemma RefusedExactly(a: Arm, call: Call, e: ArmError)
    requires Shaped(a)
    ensures Do(a, call) == Err(e) <==>
      || (call.CommandJoints? && |call.q| != (if a.hasRail then 8 else 7) && e == WrongShape)
      || (call.CommandRail? && !a.hasRail && e == RailUnavailable)
      || (call.Step? && call.dt <= 0.0 && e == BadTimeStep)
  {}

  /** A new arm is at rest where it was put, at zero when nothing is said: stopping it would
      change nothing. */
  lemma NewArmRests(hasRail: bool, q0: Option<seq<real>>, jointSpeed: real, railSpeed: real)
    ensures var n, r := if hasRail then 8 else 7, NewArm(hasRail, q0, jointSpeed, railSpeed);
      && (r.Err? <==> q0.Some? && |q0.value| != n)
      && (r.Ok? ==>
            var a := r.value;
            && Shaped(a) && After(a, Stop) == a && a.q == a.target
            && (q0.Some? ==> a.q == q0.value)
            && (q0.None? ==> forall i :: 0 <= i < n ==> a.q[i] == 0.0)
            && (forall i :: 0 <= i < n ==> a.dq[i] == 0.0))
  {}

  /** The gripper commands among the calls, in order. */
  function GripsIn(calls: seq<Call>): seq<GripperCommand> {
    if calls == [] then []
    else GripsIn(calls[..|calls| - 1])
         + (if calls[|calls| - 1].CommandGripper? then [calls[|calls| - 1].cmd] else [])
  }

  lemma {:induction false} RunSplit(a: Arm, calls: seq<Call>, c: Call)
    requires Shaped(a)
    ensures Run(a, calls + [c]) == After(Run(a, calls), c)
    decreases |calls|
  {
    if calls == [] {
      assert [c][1..] == [] && calls + [c] == [c];
      assert Run(After(a, c), []) == After(a, c);
    } else {
      assert (calls + [c])[1..] == calls[1..] + [c];
      RunSplit(After(a, calls[0]), calls[1..], c);
    }
  }

  /** The arm's log is every gripper command it was given, in order. */
  lemma {:induction false} CommandLog(a: Arm, calls: seq<Call>)
    requires Shaped(a)
    ensures Run(a, calls).gripperCommands == a.gripperCommands + GripsIn(calls)
  {
    if calls != [] {
      var n := |calls| - 1;
      assert calls == calls[..n] + [calls[n]];
      RunSplit(a, calls[..n], calls[n]);
      CommandLog(a, calls[..n]);
    }
  }

  /** Whether the last `connect` or `disconnect` among the calls, if any, was a `connect`. */
  function LastConnected(calls: seq<Call>, before: bool): bool {
    if calls == [] then before
    else if calls[|calls| - 1].Connect? then true
    else if calls[|calls| - 1].Disconnect? then false
    else LastConnected(calls[..|calls| - 1], before)
  }

  /** It is connected exactly when the last of those calls was `connect`. */
  lemma {:induction false} ConnectedByLast(a: Arm, calls: seq<Call>)
    requires Shaped(a)
    ensures Run(a, calls).connected == LastConnected(calls, a.connected)
  {
    if calls != [] {
      var n := |calls| - 1;
      assert calls == calls[..n] + [calls[n]];
      RunSplit(a, calls[..n], calls[n]);
      ConnectedByLast(a, calls[..n]);
    }
  }
}
