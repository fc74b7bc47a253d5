/**
 * The snowball a snowman throws: a ballistic projectile that expires after
 * a fixed lifetime, on hitting the ground or on leaving the course, and that
 * hits the player when close enough.
 */
module Snowballs {
  import opened Vectors
  import opened World
  import opened Seqs

  const RADIUS: real := 0.3
  const MAX_LIFETIME: real := 3.0
  const GRAVITY: real := 9.81
  /** Approximate radius of the player used by the hit test. */
  const PLAYER_RADIUS: real := 0.5
  /** Upward bias added to the aiming direction so that the throw arcs. */
  const ARC_BIAS: real := 0.3
  /** Launch speed of a snowball when the thrower gives none. */
  const DEFAULT_SPEED: real := 15.0

  datatype SnowballState = SnowballState(
    position: Vec3,
    velocity: Vec3,
    radius: real,
    lifetime: real,
    maxLifetime: real,
    active: bool)

  /** Launch velocity: towards the target, biased upwards, `speed` times a normalised direction. */
  function LaunchVelocity(origin: Vec3, target: Vec3, speed: real, m: MathLib): Vec3 {
    var direction := m.normalize(Sub(target, origin));
    Scale(speed, m.normalize(direction.(y := direction.y + ARC_BIAS)))
  }

  /** Outside the lateral bounds, in front of the start line (z > 0) or beyond the course's end. */
  predicate OutOfCourse(p: Vec3, course: Course) {
    p.x < BoundaryWidth(course) || p.x > course.width - BoundaryWidth(course) ||
    p.z > 0.0 || p.z < -course.length
  }

  /** At or below the terrain, allowing for the snowball's radius. */
  predicate OnGround(p: Vec3, radius: real, course: Course) {
    p.y <= course.findY(p.x, p.z) + radius
  }

  /** One tick of a snowball. */
  function SnowballStep(s: SnowballState, timeStep: real, course: Course): (r: SnowballState)
    ensures !s.active ==> r == s
    ensures r.active ==> s.active
    ensures r.radius == s.radius && r.maxLifetime == s.maxLifetime
    ensures s.active ==> r.lifetime == s.lifetime + timeStep
    ensures s.active && s.lifetime + timeStep > s.maxLifetime ==>
      !r.active && r.position == s.position && r.velocity == s.velocity
    ensures s.active && s.lifetime + timeStep <= s.maxLifetime ==>
      && r.position == Add(s.position, Scale(timeStep, s.velocity))
      && r.velocity == s.velocity.(y := s.velocity.y - GRAVITY * timeStep)
      && (r.active <==> !OnGround(r.position, r.radius, course) && !OutOfCourse(r.position, course))
  {
    if !s.active then s
    else
      var aged := s.(lifetime := s.lifetime + timeStep);
      if aged.lifetime > aged.maxLifetime then aged.(active := false)
      else
        var moved := aged.(position := Add(aged.position, Scale(timeStep, aged.velocity)));
        var fallen := moved.(velocity := moved.velocity.(y := moved.velocity.y - GRAVITY * timeStep));
        var grounded := if OnGround(fallen.position, fallen.radius, course) then fallen.(active := false) else fallen;
        if OutOfCourse(grounded.position, course) then grounded.(active := false) else grounded
  }

  /** The hit test against the player at `playerPosition`. */
  function Hits(s: SnowballState, playerPosition: Vec3, m: MathLib): (hit: bool)
    ensures !s.active ==> !hit
    ensures s.active ==> (hit <==> m.length(Sub(s.position, playerPosition)) < s.radius + PLAYER_RADIUS)
  {
    s.active && m.length(Sub(s.position, playerPosition)) < s.radius + PLAYER_RADIUS
  }

  /** The state after a sequence of ticks of the given durations. */
  function Run(s: SnowballState, timeSteps: seq<real>, course: Course): SnowballState
    decreases |timeSteps|
  {
    if timeSteps == [] then s else Run(SnowballStep(s, timeSteps[0], course), timeSteps[1..], course)
  }

  /** No tick ever hits the ground or leaves the course, given the state it starts from. */
  predicate ClearFlight(s: SnowballState, timeSteps: seq<real>, course: Course)
    decreases |timeSteps|
  {
    timeSteps == [] ||
    (var next := Add(s.position, Scale(timeSteps[0], s.velocity));
     !OnGround(next, s.radius, course) && !OutOfCourse(next, course) &&
     ClearFlight(SnowballStep(s, timeSteps[0], course), timeSteps[1..], course))
  }

  /** An inactive snowball never becomes active again, however many ticks run. */
  lemma {:induction false} InactiveForever(s: SnowballState, timeSteps: seq<real>, course: Course)
    requires !s.active
    ensures Run(s, timeSteps, course) == s
    decreases |timeSteps|
  {
    if timeSteps != [] {
      InactiveForever(SnowballStep(s, timeSteps[0], course), timeSteps[1..], course);
    }
  }

  /**
   * A snowball still active after some ticks has aged by their total
   * duration, has not outlived its lifetime, and has lost vertical velocity
   * to gravity in proportion to that duration; horizontal velocity is unchanged.
   */
  lemma {:induction false} ActiveFlight(s: SnowballState, timeSteps: seq<real>, course: Course)
    ensures var r := Run(s, timeSteps, course);
      r.radius == s.radius && r.maxLifetime == s.maxLifetime &&
      (r.active && timeSteps != [] ==>
        && s.active
        && r.lifetime == s.lifetime + Sum(timeSteps)
        && r.lifetime <= r.maxLifetime
        && r.velocity.y == s.velocity.y - GRAVITY * Sum(timeSteps)
        && r.velocity.x == s.velocity.x && r.velocity.z == s.velocity.z)
    decreases |timeSteps|
  {
    if timeSteps != [] {
      var next := SnowballStep(s, timeSteps[0], course);
      ActiveFlight(next, timeSteps[1..], course);
      var r := Run(s, timeSteps, course);
      if r.active && timeSteps[1..] != [] {
        assert r == Run(next, timeSteps[1..], course);
        assert next.active;
        assert GRAVITY * Sum(timeSteps) == GRAVITY * timeSteps[0] + GRAVITY * Sum(timeSteps[1..]);
      } else if r.active {
        assert timeSteps[1..] == [];
      }
    }
  }

  /** Lifetime expiry: once the total duration exceeds the remaining lifetime, the snowball is inactive. */
  lemma ExpiresAfterLifetime(s: SnowballState, timeSteps: seq<real>, course: Course)
    requires timeSteps != [] && s.lifetime + Sum(timeSteps) > s.maxLifetime
    ensures !Run(s, timeSteps, course).active
  {
    ActiveFlight(s, timeSteps, course);
  }

  /**
   * And not before: a snowball in clear flight, ticking forward, stays
   * active as long as its total age stays within its lifetime.
   */
  lemma {:induction false} ActiveUntilLifetime(s: SnowballState, timeSteps: seq<real>, course: Course)
    requires s.active
    requires forall i :: 0 <= i < |timeSteps| ==> timeSteps[i] >= 0.0
    requires s.lifetime + Sum(timeSteps) <= s.maxLifetime
    requires ClearFlight(s, timeSteps, course)
    ensures Run(s, timeSteps, course).active
    decreases |timeSteps|
  {
    if timeSteps != [] {
      SumNonNegative(timeSteps[1..]);
      var next := SnowballStep(s, timeSteps[0], course);
      assert next.active;
      ActiveUntilLifetime(next, timeSteps[1..], course);
    }
  }

  lemma {:induction false} SumNonNegative(xs: seq<real>)
    requires forall i :: 0 <= i < |xs| ==> xs[i] >= 0.0
    ensures Sum(xs) >= 0.0
  {
    if xs != [] {
      SumNonNegative(xs[1..]);
    }
  }

  class Snowball {
    var position: Vec3
    var velocity: Vec3
    var radius: real
    var lifetime: real
    var maxLifetime: real
    var active: bool

    function State(): SnowballState
      reads this
    {
      SnowballState(position, velocity, radius, lifetime, maxLifetime, active)
    }

    /** A snowball thrown from `position` towards `targetPosition`. */
    constructor (position: Vec3, targetPosition: Vec3, speed: real, m: MathLib)
      ensures State() == SnowballState(position, LaunchVelocity(position, targetPosition, speed, m),
                                       RADIUS, 0.0, MAX_LIFETIME, true)
    {
      radius := RADIUS;
      lifetime := 0.0;
      maxLifetime := MAX_LIFETIME;
      active := true;
      this.position := position;
      var direction := m.normalize(Sub(targetPosition, position));
      direction := direction.(y := direction.y + ARC_BIAS);
      velocity := Scale(speed, m.normalize(direction));
    }

    method Update(timeStep: real, course: Course)
      modifies this
      ensures State() == SnowballStep(old(State()), timeStep, course)
    {
      if !active {
        return;
      }
      lifetime := lifetime + timeStep;
      if lifetime > maxLifetime {
        active := false;
        return;
      }
      position := Add(position, Scale(timeStep, velocity));
      velocity := velocity.(y := velocity.y - GRAVITY * timeStep);
      var groundY := course.findY(position.x, position.z);
      if position.y <= groundY + radius {
        active := false;
      }
      var boundaryWidth := BoundaryWidth(course);
      if position.x < boundaryWidth || position.x > course.width - boundaryWidth ||
         position.z > 0.0 || position.z < -course.length {
        active := false;
      }
    }

    function CheckPlayerCollision(playerPosition: Vec3, m: MathLib): (hit: bool)
      reads this
      ensures hit == Hits(State(), playerPosition, m)
    {
      if !active then false
      else m.length(Sub(position, playerPosition)) < radius + PLAYER_RADIUS
    }
  }
}
