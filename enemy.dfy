/**
 * Enemies: items that move by one of three fixed patterns (patrol between
 * two waypoints, circle round a centre, follow the player and return home),
 * stay on the terrain and inside the course, and, for snowmen, throw
 * snowballs at the player.
 */
module Enemies {
  import opened Wrappers
  import opened Vectors
  import opened World
  import opened ItemTypes
  import opened Items
  import opened Snowballs
  import opened Seqs

  datatype MovementPattern = Patrolling | Circular | Following

  /** The settings level data may give an enemy; absent fields take defaults. */
  datatype EnemyConfig = EnemyConfig(
    movementPattern: MovementPattern,
    speed: real,
    patrolStart: Option<Vec3>,
    patrolEnd: Option<Vec3>,
    centerPoint: Option<Vec3>,
    radius: Option<real>,
    angularSpeed: Option<real>,
    detectionRadius: Option<real>,
    returnSpeed: Option<real>)

  /** The settings an enemy runs with, fixed when it is created. */
  datatype Behaviour = Behaviour(
    pattern: MovementPattern,
    speed: real,
    patrolStart: Vec3,
    patrolEnd: Vec3,
    centerPoint: Vec3,
    radius: real,
    angularSpeed: real,
    detectionRadius: real,
    returnSpeed: real)

  /** The part of an enemy's state that its movement changes. */
  datatype Pose = Pose(
    position: Vec3,
    velocity: Vec3,
    movingToEnd: bool,
    angle: real,
    isFollowing: bool)

  const ARRIVAL_DISTANCE: real := 0.5
  const DEFAULT_RADIUS: real := 5.0
  const DEFAULT_ANGULAR_SPEED: real := 1.0
  const DEFAULT_DETECTION_RADIUS: real := 15.0
  /** Offset along x of the default patrol end from the start position. */
  const DEFAULT_PATROL_LENGTH: real := 10.0
  const THROW_COOLDOWN_TIME: real := 2.0
  const THROW_RANGE: real := 25.0
  const MAX_SNOWBALLS: nat := 3
  /** Factor applied to the player's velocity on each snowball hit. */
  const KNOCKBACK: real := 0.7
  /** Fraction of the enemy's height a snowball is thrown from. */
  const THROW_HEIGHT: real := 0.8
  /** Speed assumed for a snowball when leading the target. */
  const SNOWBALL_SPEED: real := 15.0
  const BOB_THRESHOLD: real := 0.1
  const BOB_AMPLITUDE: real := 0.1

  /** JavaScript's `n || d` on an optional number: absent or zero gives `d`. */
  function OrNumber(n: Option<real>, d: real): (r: real)
    ensures n.Some? && n.value != 0.0 ==> r == n.value
    ensures n.None? || n.value == 0.0 ==> r == d
  {
    if n.Some? && n.value != 0.0 then n.value else d
  }

  /** `v || d` on an optional vector: any present vector is kept. */
  function OrVec(v: Option<Vec3>, d: Vec3): Vec3 {
    if v.Some? then v.value else d
  }

  /** What the constructor makes of a configuration for an enemy created at `position`. */
  function Resolve(config: EnemyConfig, position: Vec3): (b: Behaviour)
    ensures b.pattern == config.movementPattern && b.speed == config.speed
    ensures b.patrolStart == OrVec(config.patrolStart, position)
    ensures b.patrolEnd == OrVec(config.patrolEnd, position.(x := position.x + DEFAULT_PATROL_LENGTH))
    ensures b.centerPoint == OrVec(config.centerPoint, position)
    ensures b.radius == OrNumber(config.radius, DEFAULT_RADIUS) && b.radius != 0.0
    ensures b.angularSpeed == OrNumber(config.angularSpeed, DEFAULT_ANGULAR_SPEED) && b.angularSpeed != 0.0
    ensures b.detectionRadius == OrNumber(config.detectionRadius, DEFAULT_DETECTION_RADIUS)
    ensures b.detectionRadius != 0.0
    ensures b.returnSpeed == OrNumber(config.returnSpeed, config.speed * 0.5)
  {
    Behaviour(
      config.movementPattern,
      config.speed,
      OrVec(config.patrolStart, position),
      OrVec(config.patrolEnd, position.(x := position.x + DEFAULT_PATROL_LENGTH)),
      OrVec(config.centerPoint, position),
      OrNumber(config.radius, DEFAULT_RADIUS),
      OrNumber(config.angularSpeed, DEFAULT_ANGULAR_SPEED),
      OrNumber(config.detectionRadius, DEFAULT_DETECTION_RADIUS),
      OrNumber(config.returnSpeed, config.speed * 0.5))
  }

  // ---------------------------------------------------------------------
  // Movement patterns

  /** The waypoint a patrol currently heads for. */
  function PatrolTarget(b: Behaviour, p: Pose): Vec3 {
    if p.movingToEnd then b.patrolEnd else b.patrolStart
  }

  /** Patrol: turn round on arrival, otherwise move at `speed` towards the target. */
  function PatrolStep(b: Behaviour, p: Pose, timeStep: real, m: MathLib): Pose {
    var toTarget := Sub(PatrolTarget(b, p), p.position);
    if m.length(toTarget) < ARRIVAL_DISTANCE then
      p.(movingToEnd := !p.movingToEnd)
    else
      var velocity := Scale(b.speed, m.normalize(toTarget));
      p.(velocity := velocity, position := Add(p.position, Scale(timeStep, velocity)))
  }

  /** Circle: place the enemy on the circle at the advanced angle; velocity is the change of position per time. */
  function CircularStep(b: Behaviour, p: Pose, timeStep: real, m: MathLib): Pose
    requires timeStep != 0.0
  {
    var angle := p.angle + b.angularSpeed * timeStep;
    var x := b.centerPoint.x + m.cos(angle) * b.radius;
    var z := b.centerPoint.z + m.sin(angle) * b.radius;
    var newPosition := Vec3(x, p.position.y, z);
    p.(angle := angle,
       velocity := Scale(1.0 / timeStep, Sub(newPosition, p.position)),
       position := newPosition)
  }

  /** Whether a following enemy sees the player this tick. */
  predicate Engaged(b: Behaviour, p: Pose, playerPosition: Vec3, playerAirborne: bool, m: MathLib) {
    m.length(Sub(playerPosition, p.position)) < b.detectionRadius && !playerAirborne
  }

  /** Whether a following enemy is back within arrival distance of home. */
  predicate AtHome(p: Pose, home: Vec3, m: MathLib) {
    m.length(Sub(home, p.position)) < ARRIVAL_DISTANCE
  }

  /** Follow: chase a grounded player in range, otherwise return home if following, then move if moving. */
  function FollowStep(b: Behaviour, p: Pose, timeStep: real, playerPosition: Vec3, playerAirborne: bool,
                      home: Vec3, m: MathLib): Pose
  {
    var steered :=
      if Engaged(b, p, playerPosition, playerAirborne, m) then
        p.(isFollowing := true, velocity := Scale(b.speed, m.normalize(Sub(playerPosition, p.position))))
      else if p.isFollowing then
        if AtHome(p, home, m) then p.(isFollowing := false, velocity := ZERO)
        else p.(velocity := Scale(b.returnSpeed, m.normalize(Sub(home, p.position))))
      else p;
    if m.length(steered.velocity) > 0.0 then
      steered.(position := Add(steered.position, Scale(timeStep, steered.velocity)))
    else steered
  }

  function PatternStep(b: Behaviour, p: Pose, timeStep: real, playerPosition: Vec3, playerAirborne: bool,
                       home: Vec3, m: MathLib): Pose
    requires b.pattern == Circular ==> timeStep != 0.0
  {
    match b.pattern
    case Patrolling => PatrolStep(b, p, timeStep, m)
    case Circular => CircularStep(b, p, timeStep, m)
    case Following => FollowStep(b, p, timeStep, playerPosition, playerAirborne, home, m)
  }

  /**
   * After the pattern: snap to the terrain, clamp x into the course (without
   * touching velocity), and turn a patrol round at each edge it is pushed back from.
   */
  function BoundaryStep(pattern: MovementPattern, p: Pose, course: Course): (r: Pose)
    ensures r.velocity == p.velocity && r.angle == p.angle && r.isFollowing == p.isFollowing
    ensures r.position.y == course.findY(p.position.x, p.position.z) && r.position.z == p.position.z
    ensures WithinLateralBounds(course, p.position.x) ==>
      r.position.x == p.position.x && r.movingToEnd == p.movingToEnd
    ensures course.playWidth >= 0.0 ==> WithinLateralBounds(course, r.position.x)
    ensures course.playWidth >= 0.0 ==>
      (r.movingToEnd != p.movingToEnd <==> pattern == Patrolling && !WithinLateralBounds(course, p.position.x))
    ensures pattern != Patrolling ==> r.movingToEnd == p.movingToEnd
  {
    var snapped := p.(position := p.position.(y := course.findY(p.position.x, p.position.z)));
    var bw := BoundaryWidth(course);
    var left :=
      if snapped.position.x < bw then
        snapped.(position := snapped.position.(x := bw),
                 movingToEnd := if pattern == Patrolling then !snapped.movingToEnd else snapped.movingToEnd)
      else snapped;
    if left.position.x > course.width - bw then
      left.(position := left.position.(x := course.width - bw),
            movingToEnd := if pattern == Patrolling then !left.movingToEnd else left.movingToEnd)
    else left
  }

  /** The movement part of a tick: the pattern, then terrain and boundaries. */
  function MoveStep(b: Behaviour, p: Pose, timeStep: real, course: Course, playerPosition: Vec3,
                    playerAirborne: bool, home: Vec3, m: MathLib): Pose
    requires b.pattern == Circular ==> timeStep != 0.0
  {
    BoundaryStep(b.pattern, PatternStep(b, p, timeStep, playerPosition, playerAirborne, home, m), course)
  }

  // ---------------------------------------------------------------------
  // Cosmetic animation

  /** The bobbing offset; it gets faster with speed. */
  function Bobbing(animationTime: real, speed: real, m: MathLib): real {
    var frequency := 2.0 + speed * 0.3;
    m.sin(animationTime * frequency) * BOB_AMPLITUDE
  }

  /** Height bobs around the base height while the enemy moves faster than the threshold. */
  function BobbedHeight(baseHeight: real, height: real, animationTime: real, velocity: Vec3, m: MathLib): real {
    var speed := m.length(velocity);
    if speed > BOB_THRESHOLD then
      baseHeight + Bobbing(animationTime, speed, m)
    else height
  }

  /** A chasing follower's diameter is scaled by a pulse every tick (compounding). */
  function PulsedDiameter(pattern: MovementPattern, isFollowing: bool, diameter: real, animationTime: real,
                          m: MathLib): real {
    if pattern == Following && isFollowing then diameter * (1.0 + m.sin(animationTime * 4.0) * 0.05)
    else diameter
  }

  // ---------------------------------------------------------------------
  // Snowball throwing

  /** Every snowball ticked once. */
  function Stepped(states: seq<SnowballState>, timeStep: real, course: Course): (r: seq<SnowballState>)
    ensures |r| == |states|
  {
    if states == [] then []
    else Stepped(states[..|states| - 1], timeStep, course) + [SnowballStep(states[|states| - 1], timeStep, course)]
  }

  lemma {:induction false} SteppedPointwise(states: seq<SnowballState>, timeStep: real, course: Course)
    ensures forall j :: 0 <= j < |states| ==>
      Stepped(states, timeStep, course)[j] == SnowballStep(states[j], timeStep, course)
  {
    if states != [] {
      SteppedPointwise(states[..|states| - 1], timeStep, course);
    }
  }

  /** Which ticked snowballs hit the player. */
  function HitMask(after: seq<SnowballState>, playerPosition: Vec3, m: MathLib): (r: seq<bool>)
    ensures |r| == |after|
  {
    if after == [] then []
    else HitMask(after[..|after| - 1], playerPosition, m) + [Hits(after[|after| - 1], playerPosition, m)]
  }

  /** Which ticked snowballs stay in the list: those that did not hit and are still active. */
  function KeepMask(after: seq<SnowballState>, playerPosition: Vec3, m: MathLib): (r: seq<bool>)
    ensures |r| == |after|
  {
    if after == [] then []
    else
      var last := after[|after| - 1];
      KeepMask(after[..|after| - 1], playerPosition, m) + [!Hits(last, playerPosition, m) && last.active]
  }

  lemma {:induction false} HitMaskPointwise(after: seq<SnowballState>, playerPosition: Vec3, m: MathLib)
    ensures forall j :: 0 <= j < |after| ==>
      HitMask(after, playerPosition, m)[j] == Hits(after[j], playerPosition, m)
  {
    if after != [] {
      HitMaskPointwise(after[..|after| - 1], playerPosition, m);
    }
  }

  lemma {:induction false} KeepMaskPointwise(after: seq<SnowballState>, playerPosition: Vec3, m: MathLib)
    ensures forall j :: 0 <= j < |after| ==>
      KeepMask(after, playerPosition, m)[j] == (!Hits(after[j], playerPosition, m) && after[j].active)
  {
    if after != [] {
      KeepMaskPointwise(after[..|after| - 1], playerPosition, m);
    }
  }

  lemma SteppedSnoc(states: seq<SnowballState>, s: SnowballState, timeStep: real, course: Course)
    ensures Stepped(states + [s], timeStep, course) == Stepped(states, timeStep, course) + [SnowballStep(s, timeStep, course)]
  {
    assert (states + [s])[..|states|] == states;
  }

  lemma MasksSnoc(after: seq<SnowballState>, s: SnowballState, playerPosition: Vec3, m: MathLib)
    ensures HitMask(after + [s], playerPosition, m) == HitMask(after, playerPosition, m) + [Hits(s, playerPosition, m)]
    ensures KeepMask(after + [s], playerPosition, m) ==
      KeepMask(after, playerPosition, m) + [!Hits(s, playerPosition, m) && s.active]
  {
    assert (after + [s])[..|after|] == after;
  }

  /** The snowballs, ticked, that neither hit the player nor died in a tick, in order. */
  function Survivors(states: seq<SnowballState>, playerPosition: Vec3, timeStep: real, course: Course,
                     m: MathLib): (r: seq<SnowballState>)
    ensures |r| <= |states|
  {
    var after := Stepped(states, timeStep, course);
    Filter(after, KeepMask(after, playerPosition, m))
  }

  /** Number of snowballs that hit the player in a tick. */
  function HitCount(states: seq<SnowballState>, playerPosition: Vec3, timeStep: real, course: Course,
                    m: MathLib): (n: nat)
    ensures n <= |states|
  {
    CountTrue(HitMask(Stepped(states, timeStep, course), playerPosition, m))
  }

  /** The player's velocity after `hits` knockbacks. */
  function Knockback(velocity: Vec3, hits: nat): Vec3 {
    if hits == 0 then velocity else Scale(KNOCKBACK, Knockback(velocity, hits - 1))
  }

  /** The cooldown after one tick: it only counts down while positive. */
  function CooledDown(cooldown: real, timeStep: real): real {
    if cooldown > 0.0 then cooldown - timeStep else cooldown
  }

  /** The gate for a new throw. */
  predicate MayThrow(distance: real, cooldown: real, playerAirborne: bool, live: nat) {
    distance < THROW_RANGE && cooldown <= 0.0 && !playerAirborne && live < MAX_SNOWBALLS
  }

  /** The state of a snowball thrown by an enemy at `position` of height `height` at a player `distance` away. */
  function ThrownState(position: Vec3, height: real, player: Player, distance: real, m: MathLib): SnowballState
    reads player
  {
    var origin := ThrowOrigin(position, height);
    var target := PredictedPosition(player.position, player.velocity, distance);
    SnowballState(origin, LaunchVelocity(origin, target, Snowballs.DEFAULT_SPEED, m), RADIUS, 0.0, MAX_LIFETIME, true)
  }

  /** Where a snowball is thrown from. */
  function ThrowOrigin(position: Vec3, height: real): Vec3 {
    Vec3(position.x, position.y + height * THROW_HEIGHT, position.z)
  }

  /** Linear lead: where the player will be after the snowball's flight time. */
  function PredictedPosition(playerPosition: Vec3, playerVelocity: Vec3, distance: real): Vec3 {
    Add(playerPosition, Scale(distance / SNOWBALL_SPEED, playerVelocity))
  }

  /** Ticking one more snowball extends the survivors and the hits of its predecessors. */
  lemma TickSnoc(states: seq<SnowballState>, state: SnowballState, playerPosition: Vec3, timeStep: real,
                 course: Course, m: MathLib)
    ensures var s := SnowballStep(state, timeStep, course);
      var hit := Hits(s, playerPosition, m);
      && Survivors(states + [state], playerPosition, timeStep, course, m) ==
           Survivors(states, playerPosition, timeStep, course, m) + (if !hit && s.active then [s] else [])
      && HitCount(states + [state], playerPosition, timeStep, course, m) ==
           HitCount(states, playerPosition, timeStep, course, m) + (if hit then 1 else 0)
  {
    var s := SnowballStep(state, timeStep, course);
    var after := Stepped(states, timeStep, course);
    SteppedSnoc(states, state, timeStep, course);
    MasksSnoc(after, s, playerPosition, m);
    FilterSnoc(after, KeepMask(after, playerPosition, m), s, !Hits(s, playerPosition, m) && s.active);
    CountTrueSnoc(HitMask(after, playerPosition, m), Hits(s, playerPosition, m));
  }

  /** Every survivor is a ticked snowball that is still active and did not hit the player. */
  lemma {:induction false} SurvivorsLive(states: seq<SnowballState>, playerPosition: Vec3, timeStep: real,
                                         course: Course, m: MathLib)
    ensures forall s :: s in Survivors(states, playerPosition, timeStep, course, m) ==>
      s.active && !Hits(s, playerPosition, m)
  {
    if states != [] {
      var n := |states| - 1;
      assert states == states[..n] + [states[n]];
      SurvivorsLive(states[..n], playerPosition, timeStep, course, m);
      TickSnoc(states[..n], states[n], playerPosition, timeStep, course, m);
    }
  }

  /** Every snowball that is still active after its tick and did not hit the player survives. */
  lemma {:induction false} LiveSurvive(states: seq<SnowballState>, playerPosition: Vec3, timeStep: real,
                                       course: Course, m: MathLib, j: int)
    requires 0 <= j < |states|
    requires var s := SnowballStep(states[j], timeStep, course); s.active && !Hits(s, playerPosition, m)
    ensures SnowballStep(states[j], timeStep, course) in Survivors(states, playerPosition, timeStep, course, m)
  {
    var n := |states| - 1;
    assert states == states[..n] + [states[n]];
    TickSnoc(states[..n], states[n], playerPosition, timeStep, course, m);
    if j < n {
      assert states[..n][j] == states[j];
      LiveSurvive(states[..n], playerPosition, timeStep, course, m, j);
    }
  }

  /** A snowball that hits is removed, so survivors and hits together never outnumber the list. */
  lemma {:induction false} SurvivorsAndHits(states: seq<SnowballState>, playerPosition: Vec3, timeStep: real,
                                            course: Course, m: MathLib)
    ensures |Survivors(states, playerPosition, timeStep, course, m)| + HitCount(states, playerPosition, timeStep, course, m)
            <= |states|
  {
    if states != [] {
      var n := |states| - 1;
      assert states == states[..n] + [states[n]];
      SurvivorsAndHits(states[..n], playerPosition, timeStep, course, m);
      TickSnoc(states[..n], states[n], playerPosition, timeStep, course, m);
    }
  }

  /**
   * Ticks each snowball of `before` once, knocks the player back once per
   * hit and returns the survivors in order: the list's filter pass.
   */
  method TickSnowballs(before: seq<SnowballState>, timeStep: real, course: Course, player: Player, m: MathLib)
    returns (kept: seq<SnowballState>)
    modifies player`velocity
    ensures kept == Survivors(before, player.position, timeStep, course, m)
    ensures player.velocity == Knockback(old(player.velocity), HitCount(before, player.position, timeStep, course, m))
  {
    kept := [];
    var i := 0;
    while i < |before|
      invariant 0 <= i <= |before|
      invariant kept == Survivors(before[..i], player.position, timeStep, course, m)
      invariant player.velocity == Knockback(old(player.velocity), HitCount(before[..i], player.position, timeStep, course, m))
    {
      var snowball := SnowballStep(before[i], timeStep, course);
      var hit := Hits(snowball, player.position, m);
      assert before[..i + 1] == before[..i] + [before[i]];
      TickSnoc(before[..i], before[i], player.position, timeStep, course, m);
      if hit {
        player.velocity := Scale(KNOCKBACK, player.velocity);
      } else if snowball.active {
        kept := kept + [snowball];
      }
      i := i + 1;
    }
    assert before[..i] == before;
  }

  class Enemy {
    /** The item this enemy is: position, velocity, size, footprint, type. */
    const body: Item
    const behaviour: Behaviour
    const baseHeight: real
    var time: real
    var animationTime: real
    var movingToEnd: bool
    var angle: real
    var isFollowing: bool
    var snowballs: seq<SnowballState>
    var throwCooldown: real

    /** At most three live snowballs. */
    ghost predicate Valid()
      reads this`snowballs
    {
      |snowballs| <= MAX_SNOWBALLS
    }

    function CurrentPose(): Pose
      reads this`movingToEnd, this`angle, this`isFollowing, body`position, body`velocity
    {
      Pose(body.position, body.velocity, movingToEnd, angle, isFollowing)
    }

    constructor (itemType: ItemType, position: Vec3, height: real, diameter: real, config: EnemyConfig)
      ensures Valid() && fresh(body)
      ensures body.itemType == itemType && body.position == position && body.initialPosition == position
      ensures body.height == height && body.diameter == diameter
      ensures body.velocity == ZERO && !body.isCollected
      ensures body.collisionDiameter == diameter * itemType.collisionDiameter
      ensures behaviour == Resolve(config, position) && baseHeight == height
      ensures time == 0.0 && animationTime == 0.0 && movingToEnd && angle == 0.0 && !isFollowing
      ensures snowballs == [] && throwCooldown == 0.0
    {
      body := new Item(itemType, position, height, diameter);
      behaviour := Resolve(config, position);
      baseHeight := height;
      time := 0.0;
      animationTime := 0.0;
      movingToEnd := true;
      angle := 0.0;
      isFollowing := false;
      snowballs := [];
      throwCooldown := 0.0;
    }

    method UpdatePatrolling(timeStep: real, m: MathLib)
      modifies this`movingToEnd, body`position, body`velocity
      ensures CurrentPose() == PatrolStep(behaviour, old(CurrentPose()), timeStep, m)
    {
      var target := if movingToEnd then behaviour.patrolEnd else behaviour.patrolStart;
      var toTarget := Sub(target, body.position);
      var distance := m.length(toTarget);
      if distance < ARRIVAL_DISTANCE {
        movingToEnd := !movingToEnd;
      } else {
        var direction := m.normalize(toTarget);
        body.velocity := Scale(behaviour.speed, direction);
        body.position := Add(body.position, Scale(timeStep, body.velocity));
      }
    }

    method UpdateCircular(timeStep: real, m: MathLib)
      requires timeStep != 0.0
      modifies this`angle, body`position, body`velocity
      ensures CurrentPose() == CircularStep(behaviour, old(CurrentPose()), timeStep, m)
    {
      angle := angle + behaviour.angularSpeed * timeStep;
      var x := behaviour.centerPoint.x + m.cos(angle) * behaviour.radius;
      var z := behaviour.centerPoint.z + m.sin(angle) * behaviour.radius;
      var newPosition := Vec3(x, body.position.y, z);
      body.velocity := Scale(1.0 / timeStep, Sub(newPosition, body.position));
      body.position := newPosition;
    }

    method UpdateFollowing(timeStep: real, playerPosition: Vec3, playerAirborne: bool, m: MathLib)
      modifies this`isFollowing, body`position, body`velocity
      ensures CurrentPose() == FollowStep(behaviour, old(CurrentPose()), timeStep, playerPosition, playerAirborne,
                                   body.initialPosition, m)
    {
      var toPlayer := Sub(playerPosition, body.position);
      var distanceToPlayer := m.length(toPlayer);
      if distanceToPlayer < behaviour.detectionRadius && !playerAirborne {
        isFollowing := true;
        var direction := m.normalize(toPlayer);
        body.velocity := Scale(behaviour.speed, direction);
      } else if isFollowing {
        var toHome := Sub(body.initialPosition, body.position);
        var distanceToHome := m.length(toHome);
        if distanceToHome < ARRIVAL_DISTANCE {
          isFollowing := false;
          body.velocity := ZERO;
        } else {
          var direction := m.normalize(toHome);
          body.velocity := Scale(behaviour.returnSpeed, direction);
        }
      }
      if m.length(body.velocity) > 0.0 {
        body.position := Add(body.position, Scale(timeStep, body.velocity));
      }
    }

    /** The movement part of a tick: the pattern's step, then terrain and boundaries. */
    method UpdateMovement(timeStep: real, course: Course, playerPosition: Vec3, playerAirborne: bool, m: MathLib)
      requires behaviour.pattern == Circular ==> timeStep != 0.0
      modifies this`movingToEnd, this`angle, this`isFollowing, body`position, body`velocity
      ensures CurrentPose() == MoveStep(behaviour, old(CurrentPose()), timeStep, course, playerPosition,
                                        playerAirborne, body.initialPosition, m)
    {
      match behaviour.pattern {
        case Patrolling => UpdatePatrolling(timeStep, m);
        case Circular => UpdateCircular(timeStep, m);
        case Following => UpdateFollowing(timeStep, playerPosition, playerAirborne, m);
      }
      KeepOnCourse(course);
    }

    /** Snaps the enemy to the terrain and pushes it back inside the course, turning a patrol round. */
    method KeepOnCourse(course: Course)
      modifies this`movingToEnd, body`position
      ensures CurrentPose() == BoundaryStep(behaviour.pattern, old(CurrentPose()), course)
    {
      body.position := body.position.(y := course.findY(body.position.x, body.position.z));
      var boundaryWidth := BoundaryWidth(course);
      if body.position.x < boundaryWidth {
        body.position := body.position.(x := boundaryWidth);
        if behaviour.pattern == Patrolling {
          movingToEnd := !movingToEnd;
        }
      }
      if body.position.x > course.width - boundaryWidth {
        body.position := body.position.(x := course.width - boundaryWidth);
        if behaviour.pattern == Patrolling {
          movingToEnd := !movingToEnd;
        }
      }
    }

    method UpdateAnimation(timeStep: real, m: MathLib)
      modifies this`animationTime, body`height, body`diameter
      ensures animationTime == old(animationTime) + timeStep
      ensures body.height == BobbedHeight(baseHeight, old(body.height), animationTime, body.velocity, m)
      ensures body.diameter == PulsedDiameter(behaviour.pattern, isFollowing, old(body.diameter), animationTime, m)
    {
      animationTime := animationTime + timeStep;
      var velocityMagnitude := m.length(body.velocity);
      if velocityMagnitude > BOB_THRESHOLD {
        var bobbing := Bobbing(animationTime, velocityMagnitude, m);
        body.height := baseHeight + bobbing;
      }
      if behaviour.pattern == Following && isFollowing {
        var pulseScale := 1.0 + m.sin(animationTime * 4.0) * 0.05;
        body.diameter := body.diameter * pulseScale;
      }
    }

    /**
     * The list and cooldown after the throw gate, starting from the list
     * `kept` and the cooldown `cooldown`: a new snowball appended and the
     * cooldown reset when the gate opens, nothing changed otherwise.
     */
    ghost predicate ThrowOutcome(kept: seq<SnowballState>, cooldown: real, player: Player, m: MathLib)
      reads this`snowballs, this`throwCooldown, body`position, body`height, player
    {
      var distance := m.length(Sub(player.position, body.position));
      if MayThrow(distance, cooldown, player.isAirborne, |kept|) then
        && snowballs == kept + [ThrownState(body.position, body.height, player, distance, m)]
        && throwCooldown == THROW_COOLDOWN_TIME
      else
        snowballs == kept && throwCooldown == cooldown
    }

    /**
     * The outcome of a throwing tick that started with the snowballs
     * `states`, the cooldown `cooldown` and the player's velocity `velocity`
     * and position `playerPosition`: every snowball ticked once, one
     * knockback per hit, the survivors kept in order and then the throw gate
     * applied.
     */
    ghost predicate ThrowingTick(states: seq<SnowballState>, cooldown: real, velocity: Vec3, playerPosition: Vec3,
                                 timeStep: real, course: Course, player: Player, m: MathLib)
      reads this`snowballs, this`throwCooldown, body`position, body`height, player
    {
      && player.velocity == Knockback(velocity, HitCount(states, playerPosition, timeStep, course, m))
      && ThrowOutcome(Survivors(states, playerPosition, timeStep, course, m), CooledDown(cooldown, timeStep),
                      player, m)
    }

    /** Throws a new snowball at the player when the gate opens. */
    method ThrowIfReady(player: Player, m: MathLib)
      requires |snowballs| <= MAX_SNOWBALLS
      modifies this`snowballs, this`throwCooldown
      ensures Valid()
      ensures ThrowOutcome(old(snowballs), old(throwCooldown), player, m)
    {
      var playerPosition := player.position;
      var toPlayer := Sub(playerPosition, body.position);
      var distanceToPlayer := m.length(toPlayer);
      if distanceToPlayer < THROW_RANGE && throwCooldown <= 0.0 && !player.isAirborne && |snowballs| < MAX_SNOWBALLS {
        var throwPosition := ThrowOrigin(body.position, body.height);
        var leadTime := distanceToPlayer / SNOWBALL_SPEED;
        var predictedPosition := Add(playerPosition, Scale(leadTime, player.velocity));
        var snowball := new Snowball(throwPosition, predictedPosition, Snowballs.DEFAULT_SPEED, m);
        snowballs := snowballs + [snowball.State()];
        throwCooldown := THROW_COOLDOWN_TIME;
      }
    }

    /**
     * The throwing tick: the cooldown counts down; every snowball is ticked
     * once; the player is knocked back once per hit; the list is rebuilt
     * from the snowballs that neither hit nor died, in order; then the
     * throw gate is applied.
     */
    method UpdateSnowballThrowing(timeStep: real, course: Course, player: Player, m: MathLib,
                                  ghost states: seq<SnowballState>, ghost cooldown: real, ghost velocity: Vec3)
      requires Valid()
      requires snowballs == states && throwCooldown == cooldown && player.velocity == velocity
      modifies this`throwCooldown, this`snowballs, player`velocity
      ensures Valid()
      ensures ThrowingTick(states, cooldown, velocity, player.position, timeStep, course, player, m)
    {
      if throwCooldown > 0.0 {
        throwCooldown := throwCooldown - timeStep;
      }
      snowballs := TickSnowballs(snowballs, timeStep, course, player, m);
      ThrowIfReady(player, m);
    }

    /**
     * The part of a tick before throwing has been done, starting from the
     * clock `time0`, the pose `pose0`, the animation clock `animationTime0`,
     * the height `height0` and the diameter `diameter0`.
     */
    ghost predicate Advanced(timeStep: real, course: Course, playerPosition: Vec3, playerAirborne: bool, m: MathLib,
                             time0: real, pose0: Pose, animationTime0: real, height0: real, diameter0: real)
      requires behaviour.pattern == Circular ==> timeStep != 0.0
      reads this`time, this`movingToEnd, this`angle, this`isFollowing, this`animationTime
      reads body`position, body`velocity, body`height, body`diameter
    {
      && time == time0 + timeStep
      && CurrentPose() == MoveStep(behaviour, pose0, timeStep, course, playerPosition, playerAirborne,
                                   body.initialPosition, m)
      && animationTime == animationTime0 + timeStep
      && body.height == BobbedHeight(baseHeight, height0, animationTime, body.velocity, m)
      && body.diameter == PulsedDiameter(behaviour.pattern, isFollowing, diameter0, animationTime, m)
    }

    /** The part of a tick before throwing: the clock, movement and animation. */
    method Advance(timeStep: real, course: Course, playerPosition: Vec3, playerAirborne: bool, m: MathLib)
      requires behaviour.pattern == Circular ==> timeStep != 0.0
      modifies this`time, this`movingToEnd, this`angle, this`isFollowing, this`animationTime
      modifies body`position, body`velocity, body`height, body`diameter
      ensures Advanced(timeStep, course, playerPosition, playerAirborne, m, old(time), old(CurrentPose()),
                       old(animationTime), old(body.height), old(body.diameter))
    {
      time := time + timeStep;
      UpdateMovement(timeStep, course, playerPosition, playerAirborne, m);
      UpdateAnimation(timeStep, m);
    }

    /**
     * One tick of an enemy. A collected enemy does nothing. Otherwise its
     * clock advances, it moves by its pattern and is kept on the course,
     * its animation advances, and a snowman (recognised by its texture)
     * runs its throwing tick; other enemies leave their snowballs alone.
     */
    method Update(timeStep: real, course: Course, player: Player, m: MathLib)
      requires Valid()
      requires behaviour.pattern == Circular ==> timeStep != 0.0
      modifies this`time, this`movingToEnd, this`angle, this`isFollowing, this`animationTime
      modifies this`snowballs, this`throwCooldown
      modifies body`position, body`velocity, body`height, body`diameter, player`velocity
      ensures Valid()
      ensures body.isCollected == old(body.isCollected)
      ensures old(body.isCollected) ==> unchanged(this, body, player)
      ensures !old(body.isCollected) ==>
        Advanced(timeStep, course, player.position, player.isAirborne, m, old(time), old(CurrentPose()),
                 old(animationTime), old(body.height), old(body.diameter))
      ensures !old(body.isCollected) && body.itemType.texture == SNOWMAN_TEXTURE ==>
        ThrowingTick(old(snowballs), old(throwCooldown), old(player.velocity), player.position,
                     timeStep, course, player, m)
      ensures body.itemType.texture != SNOWMAN_TEXTURE ==>
        snowballs == old(snowballs) && throwCooldown == old(throwCooldown) && player.velocity == old(player.velocity)
    {
      if body.isCollected {
        return;
      }
      ghost var states, cooldown, velocity := snowballs, throwCooldown, player.velocity;
      Advance(timeStep, course, player.position, player.isAirborne, m);
      if body.itemType.texture == SNOWMAN_TEXTURE {
        UpdateSnowballThrowing(timeStep, course, player, m, states, cooldown, velocity);
      }
    }
  }
}
