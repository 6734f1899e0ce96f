/**
 * Reconstruction of robot trajectories from the solver's recorded iterates.
 * An iterate is seen only through what the sampler asks of it: the total time
 * of a contact schedule, whether a schedule is in contact at a time, and the
 * point of a spline at a time. All three are left uninterpreted.
 */
module Sampler {
  import opened Geometry
  import opened Variables

  /** Slack added to the horizon so that floating-point drift does not drop a last sample. */
  const Tolerance: real := 0.00001

  /** The variables of one recorded iterate, as the sampler reads them. */
  datatype Iterate = Iterate(
    totalTime: VarId -> real,
    inContact: (VarId, real) -> bool,
    point: (VarId, real) -> StateLin3d)

  /** One sample of the robot: base pose, per end-effector motion, force and contact, and time. */
  datatype RobotStateCartesian = RobotStateCartesian(
    baseLin: StateLin3d,
    baseAng: StateAng3d,
    eeMotion: seq<StateLin3d>,
    eeForces: seq<Vec3>,
    eeContact: seq<bool>,
    tGlobal: real)

  /** The horizon is the total time of the first end-effector's contact schedule. */
  function Horizon(it: Iterate): real
  {
    it.totalTime(Schedule(E0))
  }

  /** The number of grid times 0, dt, 2 dt, ... that do not exceed `horizon + Tolerance`. */
  function StepCount(horizon: real, dt: real): nat
    requires dt > 0.0
  {
    if horizon + Tolerance < 0.0 then 0
    else
      QuotientNonNegative(horizon + Tolerance, dt);
      ((horizon + Tolerance) / dt).Floor + 1
  }

  lemma QuotientNonNegative(a: real, b: real)
    requires a >= 0.0 && b > 0.0
    ensures a / b >= 0.0
  {
  }

  /** The robot state the sampler builds at time `t`. */
  function StateAt(it: Iterate, eeCount: nat, toAngular: StateLin3d -> StateAng3d, t: real): RobotStateCartesian
  {
    RobotStateCartesian(
      it.point(BaseLinear, t),
      toAngular(it.point(BaseAngular, t)),
      seq(eeCount, ee requires 0 <= ee < eeCount => it.point(MotionXY(ee), t)),
      seq(eeCount, ee requires 0 <= ee < eeCount => it.point(Force(ee), t).p),
      seq(eeCount, ee requires 0 <= ee < eeCount => it.inContact(Schedule(ee), t)),
      t)
  }

  /** The trajectory of one iterate: one state per grid time. */
  function Trajectory(it: Iterate, eeCount: nat, toAngular: StateLin3d -> StateAng3d, dt: real)
    : seq<RobotStateCartesian>
    requires dt > 0.0
  {
    seq(StepCount(Horizon(it), dt), k requires 0 <= k => StateAt(it, eeCount, toAngular, k as real * dt))
  }

  lemma SampleAt(it: Iterate, eeCount: nat, toAngular: StateLin3d -> StateAng3d, dt: real, k: nat)
    requires dt > 0.0 && k < StepCount(Horizon(it), dt)
    ensures |Trajectory(it, eeCount, toAngular, dt)| == StepCount(Horizon(it), dt)
    ensures Trajectory(it, eeCount, toAngular, dt)[k] == StateAt(it, eeCount, toAngular, k as real * dt)
  {
  }

  /** A grid time is sampled exactly when it does not exceed the horizon plus the tolerance. */
  lemma StepCountSpec(horizon: real, dt: real, k: nat)
    requires dt > 0.0
    ensures k < StepCount(horizon, dt) <==> k as real * dt <= horizon + Tolerance
  {
    var limit := horizon + Tolerance;
    if limit < 0.0 {
      assert k as real * dt >= 0.0;
    } else {
      var q := limit / dt;
      assert q * dt == limit;
      if k < StepCount(horizon, dt) {
        assert k as real <= q;
        MulMonotone(k as real, q, dt);
      } else {
        assert k as real > q;
        MulStrictMonotone(q, k as real, dt);
      }
    }
  }

  /** The grid time after k dt is (k + 1) dt. */
  lemma NextGridTime(k: nat, dt: real)
    ensures (k + 1) as real * dt == k as real * dt + dt
  {
  }

  lemma MulMonotone(a: real, b: real, c: real)
    requires a <= b && c > 0.0
    ensures a * c <= b * c
  {
  }

  lemma MulStrictMonotone(a: real, b: real, c: real)
    requires a < b && c > 0.0
    ensures a * c < b * c
  {
  }

  /**
   * The sample times are 0, dt, 2 dt, ...; each is within the horizon plus the
   * tolerance; the first grid time after the last sample exceeds it; and there
   * is a sample at 0 whenever the horizon is not below minus the tolerance.
   */
  lemma TrajectorySampleTimes(it: Iterate, eeCount: nat, toAngular: StateLin3d -> StateAng3d, dt: real)
    requires dt > 0.0
    ensures var tr := Trajectory(it, eeCount, toAngular, dt);
      (forall k :: 0 <= k < |tr| ==> tr[k].tGlobal == k as real * dt && tr[k].tGlobal <= Horizon(it) + Tolerance) &&
      |tr| as real * dt > Horizon(it) + Tolerance &&
      (Horizon(it) + Tolerance >= 0.0 ==> |tr| > 0 && tr[0].tGlobal == 0.0)
  {
    var tr := Trajectory(it, eeCount, toAngular, dt);
    forall k | 0 <= k < |tr|
      ensures tr[k].tGlobal == k as real * dt && tr[k].tGlobal <= Horizon(it) + Tolerance
    {
      SampleAt(it, eeCount, toAngular, dt, k);
      StepCountSpec(Horizon(it), dt, k);
    }
    StepCountSpec(Horizon(it), dt, |tr|);
    if Horizon(it) + Tolerance >= 0.0 {
      StepCountSpec(Horizon(it), dt, 0);
      SampleAt(it, eeCount, toAngular, dt, 0);
    }
  }

  /** Sample times strictly increase. */
  lemma TrajectoryTimesIncrease(it: Iterate, eeCount: nat, toAngular: StateLin3d -> StateAng3d, dt: real)
    requires dt > 0.0
    ensures var tr := Trajectory(it, eeCount, toAngular, dt);
      forall i, j :: 0 <= i < j < |tr| ==> tr[i].tGlobal < tr[j].tGlobal
  {
    var tr := Trajectory(it, eeCount, toAngular, dt);
    forall i, j | 0 <= i < j < |tr| ensures tr[i].tGlobal < tr[j].tGlobal {
      SampleAt(it, eeCount, toAngular, dt, i);
      SampleAt(it, eeCount, toAngular, dt, j);
      MulStrictMonotone(i as real, j as real, dt);
    }
  }

  /** Every sample reports one motion, force and contact flag per end-effector, at its own time. */
  lemma TrajectoryStates(it: Iterate, eeCount: nat, toAngular: StateLin3d -> StateAng3d, dt: real, k: nat, ee: nat)
    requires dt > 0.0
    requires k < |Trajectory(it, eeCount, toAngular, dt)| && ee < eeCount
    ensures var s := Trajectory(it, eeCount, toAngular, dt)[k];
      |s.eeMotion| == |s.eeForces| == |s.eeContact| == eeCount &&
      s.eeMotion[ee] == it.point(MotionXY(ee), s.tGlobal) &&
      s.eeForces[ee] == it.point(Force(ee), s.tGlobal).p &&
      s.eeContact[ee] == it.inContact(Schedule(ee), s.tGlobal) &&
      s.baseLin == it.point(BaseLinear, s.tGlobal) &&
      s.baseAng == toAngular(it.point(BaseAngular, s.tGlobal))
  {
    SampleAt(it, eeCount, toAngular, dt, k);
  }

  /**
   * The horizon is read from the first end-effector's schedule only: what the
   * other schedules report does not change the trajectory.
   */
  lemma HorizonFromFirstSchedule(it: Iterate, totalTime: VarId -> real, eeCount: nat,
                                 toAngular: StateLin3d -> StateAng3d, dt: real)
    requires dt > 0.0
    requires totalTime(Schedule(E0)) == it.totalTime(Schedule(E0))
    ensures Trajectory(it.(totalTime := totalTime), eeCount, toAngular, dt) == Trajectory(it, eeCount, toAngular, dt)
  {
  }

  /**
   * A horizon of 1 s sampled every 0.3 s gives the four samples 0, 0.3, 0.6
   * and 0.9: no extra sample is added at the horizon itself.
   */
  lemma HorizonNotAMultiple(it: Iterate, eeCount: nat, toAngular: StateLin3d -> StateAng3d)
    requires Horizon(it) == 1.0
    ensures var tr := Trajectory(it, eeCount, toAngular, 0.3);
      |tr| == 4 && tr[3].tGlobal == 0.9
  {
    StepCountSpec(1.0, 0.3, 3);
    StepCountSpec(1.0, 0.3, 4);
  }

  /** A horizon of 1 s sampled every 0.5 s gives three samples, the last at the horizon. */
  lemma HorizonAMultiple(it: Iterate, eeCount: nat, toAngular: StateLin3d -> StateAng3d)
    requires Horizon(it) == 1.0
    ensures var tr := Trajectory(it, eeCount, toAngular, 0.5);
      |tr| == 3 && tr[0].tGlobal == 0.0 && tr[1].tGlobal == 0.5 && tr[2].tGlobal == 1.0
  {
    StepCountSpec(1.0, 0.5, 2);
    StepCountSpec(1.0, 0.5, 3);
  }
}
