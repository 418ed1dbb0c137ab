/** `FakeArm`: the arm's arrays and counters, changed in place. */
module FakeArmObject {
  import opened Basics
  import opened ArmMotion
  import opened ArmStates
  import opened Poses

  class FakeArm {
    const hasRail: bool
    const jointSpeed: real
    const railSpeed: real
    const fk: Option<ForwardKinematics>
    var q: array<real>
    var dq: array<real>
    var target: array<real>
    var time: real
    var openFrac: Fraction
    var errorCode: int
    var warnCode: int
    var connected: bool
    var gripperCommands: seq<GripperCommand>

    /** State and target never share an array. */
    ghost predicate Valid()
      reads this
    {
      && q != dq && q != target && dq != target
      && q.Length == dq.Length == target.Length == Dof(hasRail)
    }

    function Model(): (a: Arm)
      requires Valid()
      reads this, q, dq, target
      ensures Shaped(a)
    {
      Arm(hasRail, jointSpeed, railSpeed, q[..], dq[..], target[..], time, openFrac, errorCode, warnCode,
          connected, gripperCommands)
    }

    /** The arrays are the ones from before or new ones: never a caller's. */
    twostate predicate OwnArrays()
      reads this
    {
      && (q == old(q) || fresh(q))
      && (dq == old(dq) || fresh(dq))
      && (target == old(target) || fresh(target))
    }

    /** The outcome of `call` on the old value: the new value, or the error. */
    static predicate Answers(was: Arm, call: Call, now: Arm, error: Option<ArmError>)
      requires Shaped(was)
    {
      now == After(was, call) && error == (if Do(was, call).Err? then Some(Do(was, call).error) else None)
    }

    constructor Start(start: array<real>, rail: bool, joint: real, slide: real, kinematics: Option<ForwardKinematics>)
      requires start.Length == Dof(rail)
      ensures Valid() && fresh(q) && fresh(dq) && fresh(target)
      ensures fk == kinematics
      ensures Ok(Model()) == NewArm(rail, Some(start[..]), joint, slide)
    {
      hasRail, jointSpeed, railSpeed, fk := rail, joint, slide, kinematics;
      var n := start.Length;
      var position := new real[n](i requires 0 <= i < n reads start => start[i]);
      q := position;
      dq := new real[n](i => 0.0);
      target := new real[n](i requires 0 <= i < n reads position => position[i]);
      time, openFrac, errorCode, warnCode, connected, gripperCommands := 0.0, 1.0, 0, 0, false, [];
      new;
      assert q[..] == start[..] && target[..] == start[..] && dq[..] == Zeros(n);
    }

    /** The constructor with its default for `q0` and its refusal of a wrong shape. */
    static method Create(
        rail: bool, q0: Option<array<real>>, joint: real, slide: real, kinematics: Option<ForwardKinematics>)
      returns (arm: Option<FakeArm>)
      ensures var v := if q0.Some? then Some(q0.value[..]) else None;
        match NewArm(rail, v, joint, slide)
        case Err(_) => arm == None
        case Ok(a) =>
          && arm.Some? && fresh(arm.value) && arm.value.Valid() && arm.value.Model() == a
          && fresh(arm.value.q) && fresh(arm.value.dq) && fresh(arm.value.target)
    {
      var n := Dof(rail);
      var start;
      if q0.Some? { start := q0.value; } else { start := new real[n](i => 0.0); }
      if start.Length != n { return None; }
      var made := new FakeArm.Start(start, rail, joint, slide, kinematics);
      assert q0.None? ==> start[..] == Zeros(n);
      return Some(made);
    }

    method Halt()
      requires Valid()
      modifies this`target
      ensures Valid() && fresh(target)
      ensures Model() == After(old(Model()), Call.Stop)
    {
      target := Copy(q);
    }

    method CommandJointsTo(goal: array<real>) returns (error: Option<ArmError>)
      requires Valid()
      modifies this`target
      ensures Valid() && OwnArrays()
      ensures Answers(old(Model()), CommandJoints(old(goal[..])), Model(), error)
    {
      if goal.Length != Dof(hasRail) { return Some(WrongShape); }
      var next := Copy(goal);
      if hasRail { next[7] := ClampRail(next[7]); }
      target := next;
      return None;
    }

    method CommandRailTo(pos: real) returns (error: Option<ArmError>)
      requires Valid()
      modifies target
      ensures Valid() && OwnArrays()
      ensures Answers(old(Model()), CommandRail(pos), Model(), error)
    {
      if !hasRail { return Some(RailUnavailable); }
      target[7] := ClampRail(pos);
      return None;
    }

    method CommandGripperTo(cmd: GripperCommand)
      requires Valid()
      modifies this`gripperCommands, this`openFrac
      ensures Valid() && OwnArrays()
      ensures Model() == After(old(Model()), CommandGripper(cmd))
    {
      gripperCommands := gripperCommands + [cmd];
      openFrac := cmd.openFrac;
    }

    method ConnectArm()
      requires Valid()
      modifies this`connected
      ensures Valid() && OwnArrays()
      ensures Model() == After(old(Model()), Call.Connect)
    {
      connected := true;
    }

    method DisconnectArm()
      requires Valid()
      modifies this`connected
      ensures Valid() && OwnArrays()
      ensures Model() == After(old(Model()), Call.Disconnect)
    {
      connected := false;
    }

    method Inject(code: int, warn: int)
      requires Valid()
      modifies this`errorCode, this`warnCode
      ensures Valid() && OwnArrays()
      ensures Model() == After(old(Model()), InjectError(code, warn))
    {
      errorCode, warnCode := code, warn;
    }

    method Clear()
      requires Valid()
      modifies this`errorCode, this`warnCode
      ensures Valid() && OwnArrays()
      ensures Model() == After(old(Model()), ClearErrors)
    {
      errorCode, warnCode := 0, 0;
    }

    /** New position and velocity arrays; the old position array is left as it was. */
    method Advance(dt: real) returns (error: Option<ArmError>)
      requires Valid()
      modifies this`q, this`dq, this`time
      ensures Valid() && OwnArrays()
      ensures Answers(old(Model()), Call.Step(dt), Model(), error)
    {
      if dt <= 0.0 { return Some(BadTimeStep); }
      var position := NextPosition(dt);
      var velocity := NextVelocity(position, dt);
      q, dq, time := position, velocity, time + dt;
      return None;
    }

    method NextPosition(dt: real) returns (position: array<real>)
      requires Valid()
      ensures fresh(position) && position[..] == StepQ(Model(), dt)
    {
      ghost var was := Model();
      var maxDelta := Limits(dt);
      position := Slewed(q, target, maxDelta);
      forall i | 0 <= i < q.Length ensures position[i] == StepQ(was, dt)[i] { StepAt(was, dt, i); }
    }

    method NextVelocity(position: array<real>, dt: real) returns (velocity: array<real>)
      requires Valid() && position.Length == q.Length && dt > 0.0
      ensures fresh(velocity) && velocity[..] == StepDq(Model(), position[..], dt)
    {
      velocity := Rates(q, position, dt);
      if hasRail { velocity[7] := 0.0; }
    }

    /** The farthest each joint moves in `dt`. */
    method Limits(dt: real) returns (maxDelta: array<real>)
      requires Valid()
      ensures fresh(maxDelta) && maxDelta.Length == q.Length
      ensures forall i :: 0 <= i < q.Length ==> maxDelta[i] == Reach(Model(), i, dt)
    {
      maxDelta := new real[q.Length](i => jointSpeed * dt);
      if hasRail { maxDelta[7] := railSpeed * dt; }
    }

    /** The state with arrays of its own, which no later call on the arm changes. */
    method GetState() returns (s: Result<ArmState, StateError>, position: array<real>, velocity: array<real>)
      requires Valid()
      ensures fresh(position) && fresh(velocity) && position != velocity
      ensures s == Checked(Published(Model(), fk))
      ensures s.Ok? ==> position[..] == s.value.q && velocity[..] == s.value.dq
    {
      position := Copy(q);
      velocity := Copy(dq);
      var pose := if fk.Some? then fk.value(q[..]) else IDENTITY_POSE;
      var rail := if hasRail then Some(q[7]) else None;
      s := Checked(ArmState(
        position[..], velocity[..], pose, openFrac, rail, errorCode, warnCode, 1, 0, false, time,
        Truncate(time * 1000000000.0)));
    }
  }

  /** `prev + clip(goal - prev, -maxDelta, maxDelta)`. */
  method Slewed(prev: array<real>, goal: array<real>, maxDelta: array<real>) returns (next: array<real>)
    requires prev.Length == goal.Length == maxDelta.Length
    ensures fresh(next) && next.Length == prev.Length
    ensures forall i :: 0 <= i < next.Length ==> next[i] == Slew(prev[i], goal[i], maxDelta[i])
  {
    next := new real[prev.Length](i requires 0 <= i < prev.Length reads prev, goal, maxDelta
      => prev[i] + Clip(goal[i] - prev[i], maxDelta[i]));
  }

  /** `(next - prev) / dt`. */
  method Rates(prev: array<real>, next: array<real>, dt: real) returns (rates: array<real>)
    requires prev.Length == next.Length && dt > 0.0
    ensures fresh(rates) && rates.Length == next.Length
    ensures forall i :: 0 <= i < rates.Length ==> rates[i] == Rate(prev[i], next[i], dt)
  {
    rates := new real[next.Length](i requires 0 <= i < next.Length reads prev, next
      => Rate(prev[i], next[i], dt));
  }

  /** `ndarray.copy`. */
  method Copy(a: array<real>) returns (b: array<real>)
    ensures fresh(b) && b[..] == a[..]
  {
    b := new real[a.Length](i requires 0 <= i < a.Length reads a => a[i]);
  }
}
