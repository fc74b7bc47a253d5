/**
 * Properties of the enemy movement patterns and of the throw cooldown over
 * one tick and over runs of ticks.
 */
module EnemyLaws {
  import opened Vectors
  import opened World
  import opened Seqs
  import opened Snowballs
  import opened Enemies

  // ---------------------------------------------------------------------
  // Circular movement

  function Sq(x: real): real {
    x * x
  }

  /**
   * When cos and sin of the new angle satisfy the Pythagorean identity, the
   * circling enemy is placed exactly `radius` away from the centre in the
   * ground plane, at its old height, at the advanced angle.
   */
  lemma CircleRadius(b: Behaviour, p: Pose, timeStep: real, m: MathLib)
    requires timeStep != 0.0
    requires var a := p.angle + b.angularSpeed * timeStep;
      Sq(m.cos(a)) + Sq(m.sin(a)) == 1.0
    ensures var r := CircularStep(b, p, timeStep, m);
      && r.angle == p.angle + b.angularSpeed * timeStep
      && Sq(r.position.x - b.centerPoint.x) + Sq(r.position.z - b.centerPoint.z) == Sq(b.radius)
      && r.position.y == p.position.y
  {
    var a := p.angle + b.angularSpeed * timeStep;
    var c, s := m.cos(a), m.sin(a);
    assert Sq(c * b.radius) + Sq(s * b.radius) == (Sq(c) + Sq(s)) * Sq(b.radius);
  }

  /** The point of its circle a circling enemy moves to this tick, at height 0. */
  function CirclePoint(b: Behaviour, p: Pose, timeStep: real, m: MathLib): Vec3 {
    var a := p.angle + b.angularSpeed * timeStep;
    Vec3(b.centerPoint.x + m.cos(a) * b.radius, 0.0, b.centerPoint.z + m.sin(a) * b.radius)
  }

  /**
   * Over a whole movement tick of a circling enemy the circle is kept only
   * where the course allows it: if the circle point's x lies within the
   * lateral bounds, the enemy ends the tick on the circle; if it lies
   * outside them (on a course of non-negative play width) the enemy is
   * clamped to x inside the bounds, off that point. Either way the height
   * is the terrain's at the unclamped circle point.
   */
  lemma CircleRadiusAfterTick(b: Behaviour, p: Pose, timeStep: real, course: Course, playerPosition: Vec3,
                              playerAirborne: bool, home: Vec3, m: MathLib)
    requires b.pattern == Circular && timeStep != 0.0
    requires var a := p.angle + b.angularSpeed * timeStep;
      Sq(m.cos(a)) + Sq(m.sin(a)) == 1.0
    ensures var r := MoveStep(b, p, timeStep, course, playerPosition, playerAirborne, home, m);
      && r.angle == p.angle + b.angularSpeed * timeStep
      && r.position.z == CirclePoint(b, p, timeStep, m).z
      && r.position.y == course.findY(CirclePoint(b, p, timeStep, m).x, CirclePoint(b, p, timeStep, m).z)
    ensures WithinLateralBounds(course, CirclePoint(b, p, timeStep, m).x) ==>
      var r := MoveStep(b, p, timeStep, course, playerPosition, playerAirborne, home, m);
      Sq(r.position.x - b.centerPoint.x) + Sq(r.position.z - b.centerPoint.z) == Sq(b.radius)
    ensures course.playWidth >= 0.0 && !WithinLateralBounds(course, CirclePoint(b, p, timeStep, m).x) ==>
      var r := MoveStep(b, p, timeStep, course, playerPosition, playerAirborne, home, m);
      r.position.x != CirclePoint(b, p, timeStep, m).x && WithinLateralBounds(course, r.position.x)
  {
    var c := CircularStep(b, p, timeStep, m);
    CircleRadius(b, p, timeStep, m);
    assert c.position == CirclePoint(b, p, timeStep, m).(y := p.position.y);
    assert PatternStep(b, p, timeStep, playerPosition, playerAirborne, home, m) == c;
    var r := BoundaryStep(Circular, c, course);
    assert MoveStep(b, p, timeStep, course, playerPosition, playerAirborne, home, m) == r;
  }

  lemma UndoScale(t: real, d: real)
    requires t != 0.0
    ensures t * ((1.0 / t) * d) == d
  {
    assert t * ((1.0 / t) * d) == (t * (1.0 / t)) * d;
  }

  /** The velocity a circling enemy reports is the one that carries its old position to its new one in the tick. */
  lemma CircularVelocityMatchesMove(b: Behaviour, p: Pose, timeStep: real, m: MathLib)
    requires timeStep != 0.0
    ensures var r := CircularStep(b, p, timeStep, m);
      Add(p.position, Scale(timeStep, r.velocity)) == r.position
  {
    var r := CircularStep(b, p, timeStep, m);
    var d := Sub(r.position, p.position);
    UndoScale(timeStep, d.x);
    UndoScale(timeStep, d.y);
    UndoScale(timeStep, d.z);
  }

  /** Every time step of a run is non-zero. */
  predicate NonZeroSteps(timeSteps: seq<real>) {
    forall i :: 0 <= i < |timeSteps| ==> timeSteps[i] != 0.0
  }

  /** A circling enemy ticked once per time step (terrain and boundaries included). */
  function CircularRun(b: Behaviour, p: Pose, timeSteps: seq<real>, course: Course, playerPosition: Vec3,
                       playerAirborne: bool, home: Vec3, m: MathLib): Pose
    requires b.pattern == Circular && NonZeroSteps(timeSteps)
    decreases |timeSteps|
  {
    if timeSteps == [] then p
    else
      CircularRun(b, MoveStep(b, p, timeSteps[0], course, playerPosition, playerAirborne, home, m),
                  timeSteps[1..], course, playerPosition, playerAirborne, home, m)
  }

  /** One tick of a circling enemy advances its angle by the angular speed times the time step. */
  lemma CircularTickAngle(b: Behaviour, p: Pose, timeStep: real, course: Course, playerPosition: Vec3,
                          playerAirborne: bool, home: Vec3, m: MathLib)
    requires b.pattern == Circular && timeStep != 0.0
    ensures MoveStep(b, p, timeStep, course, playerPosition, playerAirborne, home, m).angle
         == p.angle + b.angularSpeed * timeStep
  {
  }

  lemma NonZeroTail(timeSteps: seq<real>)
    requires timeSteps != [] && NonZeroSteps(timeSteps)
    ensures NonZeroSteps(timeSteps[1..]) && timeSteps[0] != 0.0
  {
    assert forall i :: 0 <= i < |timeSteps[1..]| ==> timeSteps[1..][i] == timeSteps[i + 1];
  }

  lemma Distribute(w: real, t: real, rest: real)
    ensures w * (t + rest) == w * t + w * rest
  {
  }

  /** An angle advanced by `w` times each time step in turn. */
  function AngleRun(angle: real, w: real, timeSteps: seq<real>): real
    decreases |timeSteps|
  {
    if timeSteps == [] then angle else AngleRun(angle + w * timeSteps[0], w, timeSteps[1..])
  }

  lemma AngleRunStep(angle: real, w: real, timeSteps: seq<real>)
    requires timeSteps != []
    ensures AngleRun(angle, w, timeSteps) == AngleRun(angle + w * timeSteps[0], w, timeSteps[1..])
  {
  }

  /** Advancing step by step is advancing by the total time. */
  lemma {:induction false} AngleRunTotal(angle: real, w: real, timeSteps: seq<real>)
    ensures AngleRun(angle, w, timeSteps) == angle + w * Sum(timeSteps)
    decreases |timeSteps|
  {
    if timeSteps != [] {
      var next := angle + w * timeSteps[0];
      assert AngleRun(angle, w, timeSteps) == AngleRun(next, w, timeSteps[1..]);
      AngleRunTotal(next, w, timeSteps[1..]);
      assert Sum(timeSteps) == timeSteps[0] + Sum(timeSteps[1..]);
      Distribute(w, timeSteps[0], Sum(timeSteps[1..]));
    }
  }

  /** Terrain and boundaries leave the angle alone, so a run's angle follows the angular speed alone. */
  lemma {:induction false} CircularRunAngle(b: Behaviour, p: Pose, timeSteps: seq<real>, course: Course,
                                            playerPosition: Vec3, playerAirborne: bool, home: Vec3, m: MathLib)
    requires b.pattern == Circular && NonZeroSteps(timeSteps)
    ensures CircularRun(b, p, timeSteps, course, playerPosition, playerAirborne, home, m).angle
         == AngleRun(p.angle, b.angularSpeed, timeSteps)
    decreases |timeSteps|
  {
    if timeSteps != [] {
      NonZeroTail(timeSteps);
      var next := MoveStep(b, p, timeSteps[0], course, playerPosition, playerAirborne, home, m);
      CircularTickAngle(b, p, timeSteps[0], course, playerPosition, playerAirborne, home, m);
      CircularRunAngle(b, next, timeSteps[1..], course, playerPosition, playerAirborne, home, m);
      assert CircularRun(b, p, timeSteps, course, playerPosition, playerAirborne, home, m)
          == CircularRun(b, next, timeSteps[1..], course, playerPosition, playerAirborne, home, m);
      ChainAngles(p.angle, b.angularSpeed, timeSteps, next.angle,
                  CircularRun(b, p, timeSteps, course, playerPosition, playerAirborne, home, m).angle);
    }
  }

  /** A run whose first step advances the angle by `w` times the first time step, then runs on, is an angle run. */
  lemma ChainAngles(angle: real, w: real, timeSteps: seq<real>, next: real, result: real)
    requires timeSteps != [] && next == angle + w * timeSteps[0]
    requires result == AngleRun(next, w, timeSteps[1..])
    ensures result == AngleRun(angle, w, timeSteps)
  {
    AngleRunStep(angle, w, timeSteps);
  }

  /** The angle of a circling enemy advances by the angular speed times the time elapsed. */
  lemma CircularAngleAdvances(b: Behaviour, p: Pose, timeSteps: seq<real>, course: Course,
                              playerPosition: Vec3, playerAirborne: bool, home: Vec3, m: MathLib)
    requires b.pattern == Circular && NonZeroSteps(timeSteps)
    ensures CircularRun(b, p, timeSteps, course, playerPosition, playerAirborne, home, m).angle
         == p.angle + b.angularSpeed * Sum(timeSteps)
  {
    CircularRunAngle(b, p, timeSteps, course, playerPosition, playerAirborne, home, m);
    AngleRunTotal(p.angle, b.angularSpeed, timeSteps);
  }

  // ---------------------------------------------------------------------
  // Following: a reference state machine

  /** What a follower is doing: waiting, chasing the player, or walking home. */
  datatype FollowMode = Idle | Chasing | Returning

  /** The follower's mode after a tick, given whether it sees the player and whether it is home. */
  function NextMode(mode: FollowMode, engaged: bool, atHome: bool): FollowMode {
    if engaged then Chasing
    else if mode == Idle then Idle
    else if atHome then Idle
    else Returning
  }

  /** The velocity the follower steers to in the mode it ends up in. */
  function ModeVelocity(b: Behaviour, p: Pose, mode: FollowMode, next: FollowMode, playerPosition: Vec3,
                        home: Vec3, m: MathLib): Vec3 {
    match next
    case Chasing => Scale(b.speed, m.normalize(Sub(playerPosition, p.position)))
    case Returning => Scale(b.returnSpeed, m.normalize(Sub(home, p.position)))
    case Idle => if mode == Idle then p.velocity else ZERO
  }

  /**
   * The follow step runs the machine: the flag `isFollowing` is "not idle";
   * the velocity is the new mode's; the position moves by it exactly when
   * its length is positive.
   */
  lemma FollowMatchesMachine(b: Behaviour, p: Pose, timeStep: real, playerPosition: Vec3, playerAirborne: bool,
                             home: Vec3, m: MathLib)
    ensures var mode := if p.isFollowing then Chasing else Idle;
      var next := NextMode(mode, Engaged(b, p, playerPosition, playerAirborne, m), AtHome(p, home, m));
      var velocity := ModeVelocity(b, p, mode, next, playerPosition, home, m);
      var r := FollowStep(b, p, timeStep, playerPosition, playerAirborne, home, m);
      && r.isFollowing == (next != Idle)
      && r.velocity == velocity
      && r.position == (if m.length(velocity) > 0.0 then Add(p.position, Scale(timeStep, velocity)) else p.position)
      && r.movingToEnd == p.movingToEnd && r.angle == p.angle
  {
  }

  /** An airborne player is never chased: a follower that was not following does not start. */
  lemma AirborneNeverEngages(b: Behaviour, p: Pose, timeStep: real, playerPosition: Vec3, home: Vec3, m: MathLib)
    ensures FollowStep(b, p, timeStep, playerPosition, true, home, m).isFollowing ==> p.isFollowing
  {
  }

  /** A returning follower that arrives home stops dead and stops following. */
  lemma ArrivalStops(b: Behaviour, p: Pose, timeStep: real, playerPosition: Vec3, playerAirborne: bool,
                     home: Vec3, m: MathLib)
    requires p.isFollowing && !Engaged(b, p, playerPosition, playerAirborne, m) && AtHome(p, home, m)
    ensures var r := FollowStep(b, p, timeStep, playerPosition, playerAirborne, home, m);
      r.velocity == ZERO && r.position == p.position && !r.isFollowing
  {
    assert Scale(timeStep, ZERO) == ZERO;
  }

  /** A follower ticked once per time step against an airborne player at the given positions. */
  function FollowRun(b: Behaviour, p: Pose, timeSteps: seq<real>, playerPositions: seq<Vec3>, home: Vec3,
                     m: MathLib): Pose
    requires |timeSteps| == |playerPositions|
    decreases |timeSteps|
  {
    if timeSteps == [] then p
    else FollowRun(b, FollowStep(b, p, timeSteps[0], playerPositions[0], true, home, m), timeSteps[1..],
                   playerPositions[1..], home, m)
  }

  /** A resting follower stays exactly where it is for as long as the player is in the air. */
  lemma {:induction false} RestingWhileAirborne(b: Behaviour, p: Pose, timeSteps: seq<real>,
                                                playerPositions: seq<Vec3>, home: Vec3, m: MathLib)
    requires |timeSteps| == |playerPositions|
    requires !p.isFollowing && p.velocity == ZERO
    ensures FollowRun(b, p, timeSteps, playerPositions, home, m) == p
    decreases |timeSteps|
  {
    if timeSteps != [] {
      assert Scale(timeSteps[0], ZERO) == ZERO;
      assert FollowStep(b, p, timeSteps[0], playerPositions[0], true, home, m) == p;
      RestingWhileAirborne(b, p, timeSteps[1..], playerPositions[1..], home, m);
    }
  }

  // ---------------------------------------------------------------------
  // Patrolling

  /**
   * A patrol turns round once for arriving at its waypoint and once for
   * being pushed back inside the course; two turns cancel out.
   */
  lemma PatrolTurns(b: Behaviour, p: Pose, timeStep: real, course: Course, playerPosition: Vec3,
                    playerAirborne: bool, home: Vec3, m: MathLib)
    requires b.pattern == Patrolling && course.playWidth >= 0.0
    ensures var arrived := m.length(Sub(PatrolTarget(b, p), p.position)) < ARRIVAL_DISTANCE;
      var pushed := !WithinLateralBounds(course, PatrolStep(b, p, timeStep, m).position.x);
      MoveStep(b, p, timeStep, course, playerPosition, playerAirborne, home, m).movingToEnd
        == ((p.movingToEnd != arrived) != pushed)
  {
  }

  // ---------------------------------------------------------------------
  // Throw cooldown

  /** The cooldown after one tick per time step. */
  function CooldownRun(cooldown: real, timeSteps: seq<real>): real
    decreases |timeSteps|
  {
    if timeSteps == [] then cooldown else CooldownRun(CooledDown(cooldown, timeSteps[0]), timeSteps[1..])
  }

  predicate NonNegativeSteps(timeSteps: seq<real>) {
    forall i :: 0 <= i < |timeSteps| ==> timeSteps[i] >= 0.0
  }

  lemma NonNegativeTail(timeSteps: seq<real>)
    requires timeSteps != [] && NonNegativeSteps(timeSteps)
    ensures NonNegativeSteps(timeSteps[1..]) && timeSteps[0] >= 0.0
  {
    assert forall i :: 0 <= i < |timeSteps[1..]| ==> timeSteps[1..][i] == timeSteps[i + 1];
  }

  /**
   * While less time than the cooldown has passed, the cooldown is the
   * remaining time, still positive, and the throw gate stays shut.
   */
  lemma {:induction false} NoThrowWhileCooling(cooldown: real, timeSteps: seq<real>)
    requires NonNegativeSteps(timeSteps) && Sum(timeSteps) < cooldown
    ensures CooldownRun(cooldown, timeSteps) == cooldown - Sum(timeSteps)
    ensures forall distance, airborne, live :: !MayThrow(distance, CooldownRun(cooldown, timeSteps), airborne, live)
    decreases |timeSteps|
  {
    if timeSteps != [] {
      NonNegativeTail(timeSteps);
      SumNonNegative(timeSteps[1..]);
      NoThrowWhileCooling(cooldown - timeSteps[0], timeSteps[1..]);
    }
  }

  /** Once at least the cooldown's worth of time has passed, the cooldown no longer blocks a throw. */
  lemma {:induction false} CooldownExpires(cooldown: real, timeSteps: seq<real>)
    requires NonNegativeSteps(timeSteps) && Sum(timeSteps) >= cooldown
    ensures CooldownRun(cooldown, timeSteps) <= 0.0
    decreases |timeSteps|
  {
    if timeSteps == [] {
    } else if cooldown <= 0.0 {
      NonNegativeTail(timeSteps);
      SumNonNegative(timeSteps[1..]);
      CooldownExpires(cooldown, timeSteps[1..]);
    } else {
      NonNegativeTail(timeSteps);
      CooldownExpires(cooldown - timeSteps[0], timeSteps[1..]);
    }
  }
}
