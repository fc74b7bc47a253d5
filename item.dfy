/**
 * The base item: an object placed on the course with a square collision
 * footprint, optionally moving over the terrain and bouncing off the
 * course boundaries; and the swept collision test of the player against it.
 */
module Items {
  import opened Vectors
  import opened World
  import opened ItemTypes

  function Abs(r: real): real {
    if r < 0.0 then -r else r
  }

  /** Position and velocity of a moving entity. */
  datatype Motion = Motion(position: Vec3, velocity: Vec3)

  /**
   * Reference definition of the footprint: an open square of half-width
   * `radius` around `center` in the horizontal plane, below height `top`.
   */
  predicate InFootprint(center: Vec3, top: real, radius: real, p: Vec3) {
    Abs(p.x - center.x) < radius && Abs(p.z - center.z) < radius && p.y < top
  }

  /** Number of intermediate samples taken along a player movement of length `distance`. */
  function NumSteps(distance: real, collisionDiameter: real): int
    requires collisionDiameter > 0.0
  {
    (distance / collisionDiameter).Floor
  }

  /** The movement split into `n + 1` equal parts. */
  function StepOf(movement: Vec3, n: int): Vec3
    requires n >= 0
  {
    Scale(1.0 / ((n + 1) as real), movement)
  }

  /** The `i`-th sample point, `i` steps away from `from`. */
  function Sample(from: Vec3, step: Vec3, i: int): Vec3 {
    Add(from, Scale(i as real, step))
  }

  /**
   * One tick of a movable item: integrate, snap to the terrain at the new
   * (x, z), then clamp x into the course and bounce the lateral velocity
   * away from the edge that was hit.
   */
  function MovableStep(k: Motion, timeStep: real, course: Course): (r: Motion)
    ensures var moved := Add(k.position, Scale(timeStep, k.velocity));
      && r.position.y == course.findY(moved.x, moved.z)
      && r.position.z == moved.z
      && r.velocity.y == k.velocity.y && r.velocity.z == k.velocity.z
      && (WithinLateralBounds(course, moved.x) ==>
            r.position.x == moved.x && r.velocity == k.velocity)
      && (course.playWidth >= 0.0 ==> WithinLateralBounds(course, r.position.x))
      && (course.playWidth >= 0.0 && moved.x < BoundaryWidth(course) ==>
            r.position.x == BoundaryWidth(course) && r.velocity.x == Abs(k.velocity.x))
      && (moved.x > course.width - BoundaryWidth(course) ==>
            r.position.x == course.width - BoundaryWidth(course) && r.velocity.x == -Abs(k.velocity.x))
  {
    var moved := Add(k.position, Scale(timeStep, k.velocity));
    var snapped := moved.(y := course.findY(moved.x, moved.z));
    var bw := BoundaryWidth(course);
    var left := if snapped.x < bw then Motion(snapped.(x := bw), k.velocity.(x := Abs(k.velocity.x)))
                else Motion(snapped, k.velocity);
    if left.position.x > course.width - bw then
      Motion(left.position.(x := course.width - bw), left.velocity.(x := -Abs(left.velocity.x)))
    else
      left
  }

  class Item {
    const itemType: ItemType
    var position: Vec3
    var height: real
    var diameter: real
    var velocity: Vec3
    const initialPosition: Vec3
    var isCollected: bool
    /** The footprint, fixed when the item is created. */
    const collisionDiameter: real
    const collisionRadius: real := collisionDiameter / 2.0

    constructor (itemType: ItemType, position: Vec3, height: real, diameter: real)
      ensures this.itemType == itemType && this.position == position
      ensures initialPosition == position
      ensures this.height == height && this.diameter == diameter
      ensures velocity == ZERO && !isCollected
      ensures collisionDiameter == diameter * itemType.collisionDiameter
      ensures collisionRadius == collisionDiameter / 2.0
    {
      this.itemType := itemType;
      this.position := position;
      this.initialPosition := position;
      this.height := height;
      this.diameter := diameter;
      this.velocity := ZERO;
      this.isCollected := false;
      this.collisionDiameter := diameter * itemType.collisionDiameter;
    }

    /** Does the point `p` lie inside the footprint of this item's size centred on `item`? */
    function HasCollision(item: Item, p: Vec3): (r: bool)
      reads this, item
      ensures r == InFootprint(item.position, item.position.y + item.height, collisionRadius, p)
    {
      p.z - collisionRadius < item.position.z &&
      p.z + collisionRadius > item.position.z &&
      p.x - collisionRadius < item.position.x &&
      p.x + collisionRadius > item.position.x &&
      p.y < item.position.y + item.height
    }

    /**
     * Swept test of the player's movement from `lastPlayerPosition` to
     * `playerPosition`: the endpoint, then `n` evenly spaced intermediate
     * points, where `n` is the number of footprint diameters the movement spans.
     */
    method HasCollisionDuringMovement(item: Item, playerPosition: Vec3, lastPlayerPosition: Vec3, m: MathLib)
      returns (hit: bool)
      requires collisionDiameter > 0.0
      ensures HasCollision(item, playerPosition) ==> hit
      ensures hit <==> SweptHit(item, playerPosition, lastPlayerPosition, m)
    {
      if HasCollision(item, playerPosition) {
        assert SweptHit(item, playerPosition, lastPlayerPosition, m);
        return true;
      }
      var movement := Sub(playerPosition, lastPlayerPosition);
      var distance := m.length(movement);
      var numSteps := (distance / collisionDiameter).Floor;
      // A negative count (a negative length) runs no sample, like a zero one.
      if numSteps <= 0 {
        assert !SweptHit(item, playerPosition, lastPlayerPosition, m);
        return false;
      }
      var step := Scale(1.0 / ((numSteps + 1) as real), movement);
      assert numSteps == NumSteps(m.length(movement), collisionDiameter);
      assert step == StepOf(movement, numSteps);
      var interpolatedPosition := lastPlayerPosition;
      for i := 0 to numSteps
        invariant interpolatedPosition == Sample(lastPlayerPosition, step, i)
        invariant forall j :: 1 <= j <= i ==> !HasCollision(item, Sample(lastPlayerPosition, step, j))
      {
        SampleNext(lastPlayerPosition, step, i);
        interpolatedPosition := Add(interpolatedPosition, step);
        if HasCollision(item, interpolatedPosition) {
          assert 1 <= i + 1 <= numSteps && HasCollision(item, Sample(lastPlayerPosition, step, i + 1));
          assert SweptHit(item, playerPosition, lastPlayerPosition, m);
          return true;
        }
      }
      assert step == StepOf(movement, numSteps);
      assert !exists i :: 1 <= i <= numSteps && HasCollision(item, Sample(lastPlayerPosition, step, i));
      assert !SweptHit(item, playerPosition, lastPlayerPosition, m);
      return false;
    }

    /**
     * The swept test's meaning: the endpoint, or one of the sample points
     * 1..n strictly between the two positions, lies in the footprint.
     */
    ghost predicate SweptHit(item: Item, playerPosition: Vec3, lastPlayerPosition: Vec3, m: MathLib)
      reads this, item
      requires collisionDiameter > 0.0
    {
      var movement := Sub(playerPosition, lastPlayerPosition);
      var n := NumSteps(m.length(movement), collisionDiameter);
      HasCollision(item, playerPosition) ||
      exists i :: 1 <= i <= n && HasCollision(item, Sample(lastPlayerPosition, StepOf(movement, n), i))
    }

    /**
     * A straight pass parallel to the x or the z axis, in either direction,
     * from at or before the footprint's near edge to at or beyond its far
     * edge, level with it and below its top, is detected. `d` is the sign of
     * the direction.
     */
    lemma NoTunneling(item: Item, playerPosition: Vec3, lastPlayerPosition: Vec3, m: MathLib, alongX: bool, d: real)
      requires collisionDiameter > 0.0
      requires d == 1.0 || d == -1.0
      requires lastPlayerPosition.y == playerPosition.y
      requires Across(lastPlayerPosition, alongX) == Across(playerPosition, alongX)
      requires m.length(Sub(playerPosition, lastPlayerPosition)) ==
               d * (Along(playerPosition, alongX) - Along(lastPlayerPosition, alongX))
      requires d * (Along(item.position, alongX) - Along(lastPlayerPosition, alongX)) >= collisionRadius
      requires d * (Along(playerPosition, alongX) - Along(item.position, alongX)) >= collisionRadius
      requires Abs(Across(playerPosition, alongX) - Across(item.position, alongX)) < collisionRadius
      requires playerPosition.y < item.position.y + item.height
      ensures SweptHit(item, playerPosition, lastPlayerPosition, m)
    {
      NoTunnelingAlongAxis(item.position, item.position.y + item.height, collisionDiameter,
                           lastPlayerPosition, playerPosition, m, alongX, d);
    }

    /**
     * A diagonal movement that clips a corner of the footprint can pass
     * between two samples: a footprint of diameter 1 and height 1 at the
     * origin, and a movement of length 20 from (-5.15, 0, 8) to (6.85, 0, -8),
     * which is inside the footprint a fraction 0.47 of the way along.
     */
    lemma CornerClipMissed(item: Item, m: MathLib)
      requires collisionDiameter == 1.0 && item.position == ZERO && item.height == 1.0
      requires m.length(Vec3(12.0, 0.0, -16.0)) == 20.0
      ensures var last, current := Vec3(-5.15, 0.0, 8.0), Vec3(6.85, 0.0, -8.0);
        && HasCollision(item, Add(last, Scale(0.47, Sub(current, last))))
        && !SweptHit(item, current, last, m)
    {
      var last, current := Vec3(-5.15, 0.0, 8.0), Vec3(6.85, 0.0, -8.0);
      assert collisionRadius == 0.5;
      assert HasCollision(item, Add(last, Scale(0.47, Sub(current, last)))) by {
        assert Add(last, Scale(0.47, Sub(current, last))) == Vec3(0.49, 0.0, 0.48);
      }
      assert !SweptHit(item, current, last, m) by {
        var movement := Sub(current, last);
        assert movement == Vec3(12.0, 0.0, -16.0);
        SamplesMissCorner();
        assert NumSteps(m.length(movement), collisionDiameter) == 20;
        assert !HasCollision(item, current);
        forall i | 1 <= i <= 20
          ensures !HasCollision(item, Sample(last, StepOf(movement, 20), i))
        {
        }
      }
    }

    /** A movement none of whose points after the start touches the footprint is not reported. */
    lemma NoFalseHits(item: Item, playerPosition: Vec3, lastPlayerPosition: Vec3, m: MathLib)
      requires collisionDiameter > 0.0
      requires forall t :: 0.0 < t <= 1.0 ==>
        !HasCollision(item, Add(lastPlayerPosition, Scale(t, Sub(playerPosition, lastPlayerPosition))))
      ensures !SweptHit(item, playerPosition, lastPlayerPosition, m)
    {
      var n := NumSteps(m.length(Sub(playerPosition, lastPlayerPosition)), collisionDiameter);
      if n >= 0 {
        HitsLieOnPath(item.position, item.position.y + item.height, collisionRadius,
                      lastPlayerPosition, playerPosition, n);
      } else {
        assert Add(lastPlayerPosition, Scale(1.0, Sub(playerPosition, lastPlayerPosition))) == playerPosition;
      }
    }

    /** One tick: static and collected items stay put, others move as MovableStep says. */
    method Update(timeStep: real, course: Course)
      modifies this`position, this`velocity
      ensures old(itemType.isStatic || isCollected) ==>
        position == old(position) && velocity == old(velocity)
      ensures !old(itemType.isStatic || isCollected) ==>
        Motion(position, velocity) == MovableStep(Motion(old(position), old(velocity)), timeStep, course)
    {
      if itemType.isStatic || isCollected {
        return;
      }
      position := Add(position, Scale(timeStep, velocity));
      position := position.(y := course.findY(position.x, position.z));
      var boundaryWidth := BoundaryWidth(course);
      if position.x < boundaryWidth {
        position := position.(x := boundaryWidth);
        velocity := velocity.(x := Abs(velocity.x));
      }
      if position.x > course.width - boundaryWidth {
        position := position.(x := course.width - boundaryWidth);
        velocity := velocity.(x := -Abs(velocity.x));
      }
    }
  }

  /** Adding one step moves to the next sample point. */
  lemma SampleNext(from: Vec3, step: Vec3, i: int)
    ensures Sample(from, step, i + 1) == Add(Sample(from, step, i), step)
  {
    assert ((i + 1) as real) * step.x == (i as real) * step.x + step.x;
    assert ((i + 1) as real) * step.y == (i as real) * step.y + step.y;
    assert ((i + 1) as real) * step.z == (i as real) * step.z + step.z;
  }

  /** The last sample point before the endpoint is sample `n`; sample `n + 1` is the endpoint itself. */
  lemma SamplesEndAtPlayer(last: Vec3, current: Vec3, n: int)
    requires n >= 0
    ensures Sample(last, StepOf(Sub(current, last), n), n + 1) == current
    ensures Sample(last, StepOf(Sub(current, last), n), 0) == last
  {
    var k := (n + 1) as real;
    var mv := Sub(current, last);
    assert k * (1.0 / k) == 1.0;
    calc {
      k * ((1.0 / k) * mv.x);
      (k * (1.0 / k)) * mv.x;
      mv.x;
    }
    calc {
      k * ((1.0 / k) * mv.y);
      (k * (1.0 / k)) * mv.y;
      mv.y;
    }
    calc {
      k * ((1.0 / k) * mv.z);
      (k * (1.0 / k)) * mv.z;
      mv.z;
    }
  }

  lemma MulMonotone(x: real, y: real, k: real)
    requires k > 0.0 && x <= y
    ensures x * k <= y * k
  {
  }

  lemma MulStrict(x: real, y: real, k: real)
    requires k > 0.0 && x < y
    ensures x * k < y * k
  {
  }

  lemma BelowIfProductBelow(i: int, n: int, s: real, dist: real)
    requires s > 0.0 && (i as real) * s < dist && ((n + 1) as real) * s == dist
    ensures i <= n
  {
    if i > n {
      MulMonotone((n + 1) as real, i as real, s);
    }
  }

  /** A movement of at least one diameter gets at least one sample, spaced less than a diameter apart. */
  lemma StepShorterThanDiameter(dist: real, diameter: real)
    requires diameter > 0.0 && dist >= diameter
    ensures var n := NumSteps(dist, diameter);
      var s := (1.0 / ((n + 1) as real)) * dist;
      n >= 1 && 0.0 < s < diameter && ((n + 1) as real) * s == dist
  {
    var ratio := dist / diameter;
    Quotient(dist, diameter);
    var n := NumSteps(dist, diameter);
    assert ratio >= 1.0 by {
      if ratio < 1.0 {
        MulStrict(ratio, 1.0, diameter);
      }
    }
    var k := (n + 1) as real;
    FloorBounds(ratio);
    ScaledBelow(ratio, k, diameter, dist);
    ShareBelow(dist, k, diameter);
  }

  lemma Quotient(a: real, d: real)
    requires d != 0.0
    ensures (a / d) * d == a
  {
  }

  lemma ScaledBelow(ratio: real, k: real, d: real, dist: real)
    requires d > 0.0 && ratio < k && ratio * d == dist
    ensures dist < k * d
  {
    MulStrict(ratio, k, d);
  }

  /** One of `k` equal shares of a distance below `k * d` is below `d`, and `k` shares make the whole. */
  lemma ShareBelow(dist: real, k: real, d: real)
    requires k > 0.0 && 0.0 < dist < k * d
    ensures 0.0 < (1.0 / k) * dist < d && k * ((1.0 / k) * dist) == dist
  {
    MulStrict(dist, k * d, 1.0 / k);
    assert k * (1.0 / k) == 1.0;
    assert k * ((1.0 / k) * dist) == (k * (1.0 / k)) * dist;
  }

  lemma FloorBounds(r: real)
    ensures (r.Floor as real) <= r < (r.Floor as real) + 1.0
  {
  }

  /** The first grid point `i * s` beyond `a >= 0` lies within one spacing of it. */
  lemma FirstPointBeyond(a: real, s: real)
    requires a >= 0.0 && s > 0.0
    ensures var i := (a / s).Floor + 1;
      i >= 1 && a < (i as real) * s <= a + s
  {
    var r := a / s;
    Quotient(a, s);
    var q := r.Floor;
    FloorBounds(r);
    assert ((q + 1) as real) == (q as real) + 1.0;
    MulMonotone(q as real, r, s);
    MulStrict(r, (q as real) + 1.0, s);
    AddOneTimes(q as real, s);
  }

  lemma AddOneTimes(x: real, s: real)
    ensures (x + 1.0) * s == x * s + s
  {
  }

  /** The coordinate a movement parallel to an axis runs along: x, or else z. */
  function Along(p: Vec3, alongX: bool): real {
    if alongX then p.x else p.z
  }

  /** The other horizontal coordinate. */
  function Across(p: Vec3, alongX: bool): real {
    if alongX then p.z else p.x
  }

  /** A vector of length |v| along the axis. */
  function AxisVector(alongX: bool, v: real): Vec3 {
    if alongX then Vec3(v, 0.0, 0.0) else Vec3(0.0, 0.0, v)
  }

  /** Samples of a step parallel to an axis keep y and the other coordinate. */
  lemma SampleAlongAxis(from: Vec3, v: real, alongX: bool, i: int)
    ensures var p := Sample(from, AxisVector(alongX, v), i);
      Along(p, alongX) == Along(from, alongX) + (i as real) * v &&
      Across(p, alongX) == Across(from, alongX) && p.y == from.y
  {
    assert (i as real) * 0.0 == 0.0;
  }

  /** The step of a movement parallel to an axis is parallel to it too. */
  lemma StepAlongAxis(movement: Vec3, alongX: bool, d: real, dist: real, n: int, s: real, v: real)
    requires n >= 0 && (d == 1.0 || d == -1.0) && movement == AxisVector(alongX, d * dist)
    requires s == (1.0 / ((n + 1) as real)) * dist && v == d * s
    ensures StepOf(movement, n) == AxisVector(alongX, v)
  {
    assert (1.0 / ((n + 1) as real)) * 0.0 == 0.0;
    SignedProduct(d, 1.0 / ((n + 1) as real), dist, d * dist);
  }

  /** `x` lies strictly within `r` of `c`. */
  predicate Near(x: real, c: real, r: real) {
    Abs(x - c) < r
  }

  /** A direction sign: multiplying by it twice is the identity and keeps absolute values. */
  lemma Signed(d: real, x: real)
    requires d == 1.0 || d == -1.0
    ensures d * (d * x) == x && Abs(d * x) == Abs(x)
  {
  }

  /** Multiplying by a signed factor `v == d * y` is multiplying by `y` and then by the sign. */
  lemma SignedProduct(d: real, x: real, y: real, v: real)
    requires d == 1.0 || d == -1.0
    requires v == d * y
    ensures x * v == d * (x * y)
  {
    if d == 1.0 {
      assert v == y && d * (x * y) == x * y;
    } else {
      assert v == -y && d * (x * y) == -(x * y);
    }
  }

  /** The point `i` signed steps `v == d * s` from `last` lies within `radius` of `center` when `i * s` is within `radius` of the centre's signed distance. */
  lemma InsideAlong(d: real, last: real, center: real, radius: real, s: real, i: int, v: real)
    requires d == 1.0 || d == -1.0
    requires d * (center - last) - radius < (i as real) * s < d * (center - last) + radius
    requires v == d * s
    ensures Near(last + (i as real) * v, center, radius)
  {
    var t := (i as real) * s;
    SignedProduct(d, i as real, s, v);
    if d == 1.0 {
      assert last + d * t - center == t - (center - last);
    } else {
      assert last + d * t - center == (last - center) - t;
    }
  }

  /** The twenty samples of the corner-clipping movement all lie outside the unit footprint at the origin. */
  lemma SamplesMissCorner()
    ensures var last, movement := Vec3(-5.15, 0.0, 8.0), Vec3(12.0, 0.0, -16.0);
      NumSteps(20.0, 1.0) == 20 &&
      forall i :: 1 <= i <= 20 ==> !InFootprint(ZERO, 1.0, 0.5, Sample(last, StepOf(movement, 20), i))
  {
    var last, movement := Vec3(-5.15, 0.0, 8.0), Vec3(12.0, 0.0, -16.0);
    assert StepOf(movement, 20) == Vec3(12.0 / 21.0, 0.0, -16.0 / 21.0);
    forall i | 1 <= i <= 20
      ensures !InFootprint(ZERO, 1.0, 0.5, Sample(last, StepOf(movement, 20), i))
    {
      var p := Sample(last, Vec3(12.0 / 21.0, 0.0, -16.0 / 21.0), i);
      assert p.x == -5.15 + (i as real) * (12.0 / 21.0);
      assert p.z == 8.0 + (i as real) * (-16.0 / 21.0);
      if i <= 8 {
        assert p.x <= -5.15 + 96.0 / 21.0;
      } else if i == 9 {
        assert p.z == 8.0 - 144.0 / 21.0;
      } else {
        assert p.x >= -5.15 + 120.0 / 21.0;
      }
    }
  }

  /** A point `t` past `last` lies within `radius` of a centre `a + radius` past it. */
  lemma WithinRadius(a: real, t: real, radius: real)
    requires a < t < a + 2.0 * radius
    ensures Abs(t - a - radius) < radius
  {
  }

  /** Some sample `i * s` with `1 <= i <= n` falls strictly inside the interval `(a, a + 2 * radius)`. */
  lemma GridPointInside(a: real, s: real, dist: real, n: int, radius: real) returns (i: int)
    requires a >= 0.0 && 0.0 < s < 2.0 * radius && a + 2.0 * radius <= dist && ((n + 1) as real) * s == dist
    ensures 1 <= i <= n && a < (i as real) * s < a + 2.0 * radius
  {
    FirstPointBeyond(a, s);
    i := (a / s).Floor + 1;
    BelowIfProductBelow(i, n, s, dist);
  }

  /**
   * No tunnelling along an axis: a movement parallel to the x or the z axis,
   * in the direction of sign `d`, that starts at or before the footprint's
   * near edge and ends at or beyond its far edge, level with the footprint
   * across and below its top, has a sample point inside the footprint.
   * (`length` is assumed to give that movement's true length.)
   */
  lemma NoTunnelingAlongAxis(center: Vec3, top: real, diameter: real, last: Vec3, current: Vec3, m: MathLib,
                             alongX: bool, d: real)
    requires diameter > 0.0
    requires d == 1.0 || d == -1.0
    requires last.y == current.y && Across(last, alongX) == Across(current, alongX)
    requires m.length(Sub(current, last)) == d * (Along(current, alongX) - Along(last, alongX))
    requires d * (Along(center, alongX) - Along(last, alongX)) >= diameter / 2.0
    requires d * (Along(current, alongX) - Along(center, alongX)) >= diameter / 2.0
    requires Abs(Across(current, alongX) - Across(center, alongX)) < diameter / 2.0 && current.y < top
    ensures var movement := Sub(current, last);
      var n := NumSteps(m.length(movement), diameter);
      exists i :: 1 <= i <= n && InFootprint(center, top, diameter / 2.0, Sample(last, StepOf(movement, n), i))
  {
    var movement := Sub(current, last);
    var radius := diameter / 2.0;
    var al, ac, ae := Along(last, alongX), Along(center, alongX), Along(current, alongX);
    var dist := d * (ae - al);
    var n := NumSteps(dist, diameter);
    var s := (1.0 / ((n + 1) as real)) * dist;
    var v := d * s;
    assert 0.0 < s < diameter && ((n + 1) as real) * s == dist by {
      SignedSplit(d, ae, ac, al);
      StepShorterThanDiameter(dist, diameter);
    }
    var i := AxisHitIndex(al, ac, ae, d, radius, dist, n, s, v);
    AxisSampleHit(center, top, radius, last, current, alongX, d, dist, n, s, v, i);
  }

  /** The vector form of the one-dimensional hit: the `i`-th sample of the axis-parallel movement is in the footprint. */
  lemma AxisSampleHit(center: Vec3, top: real, radius: real, last: Vec3, current: Vec3, alongX: bool, d: real,
                      dist: real, n: int, s: real, v: real, i: int)
    requires d == 1.0 || d == -1.0
    requires last.y == current.y && Across(last, alongX) == Across(current, alongX)
    requires Abs(Across(current, alongX) - Across(center, alongX)) < radius && current.y < top
    requires dist == d * (Along(current, alongX) - Along(last, alongX))
    requires n >= 0 && s == (1.0 / ((n + 1) as real)) * dist && v == d * s
    requires Near(Along(last, alongX) + (i as real) * v, Along(center, alongX), radius)
    ensures InFootprint(center, top, radius, Sample(last, StepOf(Sub(current, last), n), i))
  {
    AxisMovement(last, current, alongX, d);
    StepAlongAxis(Sub(current, last), alongX, d, dist, n, s, v);
    AxisSampleInFootprint(center, top, radius, last, alongX, v, i);
  }

  /** A sample of an axis-parallel step that is inside along the axis, and level across and below the top, is in the footprint. */
  lemma AxisSampleInFootprint(center: Vec3, top: real, radius: real, from: Vec3, alongX: bool, v: real, i: int)
    requires Near(Along(from, alongX) + (i as real) * v, Along(center, alongX), radius)
    requires Abs(Across(from, alongX) - Across(center, alongX)) < radius && from.y < top
    ensures InFootprint(center, top, radius, Sample(from, AxisVector(alongX, v), i))
  {
    SampleAlongAxis(from, v, alongX, i);
    FootprintOnAxes(center, top, radius, Sample(from, AxisVector(alongX, v), i), alongX);
  }

  /**
   * The one-dimensional core of no tunnelling: along a line from `last` past
   * the interval of half-width `diameter / 2` round `center` in direction
   * `d`, the step `s` of the sampler, signed by `d`, puts some sample 1..n strictly
   * inside the interval.
   */
  lemma AxisHitIndex(last: real, center: real, current: real, d: real, radius: real, dist: real, n: int, s: real,
                     v: real)
    returns (i: int)
    requires d == 1.0 || d == -1.0
    requires d * (center - last) >= radius && d * (current - center) >= radius && dist == d * (current - last)
    requires 0.0 < s < 2.0 * radius && ((n + 1) as real) * s == dist && v == d * s
    ensures 1 <= i <= n && Near(last + (i as real) * v, center, radius)
  {
    var a := d * (center - last) - radius;
    assert a >= 0.0 && a + 2.0 * radius <= dist by {
      SignedSplit(d, current, center, last);
    }
    i := GridPointInside(a, s, dist, n, radius);
    InsideAlong(d, last, center, radius, s, i, v);
  }

  /** A point within the radius along both horizontal axes and below the top is in the footprint. */
  lemma FootprintOnAxes(center: Vec3, top: real, radius: real, p: Vec3, alongX: bool)
    requires Near(Along(p, alongX), Along(center, alongX), radius)
    requires Abs(Across(p, alongX) - Across(center, alongX)) < radius && p.y < top
    ensures InFootprint(center, top, radius, p)
  {
  }

  /** A movement parallel to an axis in direction `d` is the axis vector of its signed extent. */
  lemma AxisMovement(last: Vec3, current: Vec3, alongX: bool, d: real)
    requires d == 1.0 || d == -1.0
    requires last.y == current.y && Across(last, alongX) == Across(current, alongX)
    ensures Sub(current, last) == AxisVector(alongX, d * (d * (Along(current, alongX) - Along(last, alongX))))
  {
    Signed(d, Along(current, alongX) - Along(last, alongX));
  }

  /** Signed extents add up. */
  lemma SignedSplit(d: real, e: real, c: real, l: real)
    ensures d * (e - l) == d * (e - c) + d * (c - l)
  {
  }

  /** Sample `i` is the point a fraction `i / (n + 1)` of the way along the movement. */
  lemma SampleOnSegment(last: Vec3, current: Vec3, n: int, i: int)
    requires n >= 0
    ensures Sample(last, StepOf(Sub(current, last), n), i) ==
            Add(last, Scale((i as real) / ((n + 1) as real), Sub(current, last)))
  {
    var k := (n + 1) as real;
    var mv := Sub(current, last);
    assert (i as real) / k == (i as real) * (1.0 / k);
    assert (i as real) * ((1.0 / k) * mv.x) == ((i as real) * (1.0 / k)) * mv.x;
    assert (i as real) * ((1.0 / k) * mv.y) == ((i as real) * (1.0 / k)) * mv.y;
    assert (i as real) * ((1.0 / k) * mv.z) == ((i as real) * (1.0 / k)) * mv.z;
  }

  /**
   * No false hits: if no point of the movement after `last` lies in the
   * footprint, neither the endpoint nor any sample does.
   */
  lemma HitsLieOnPath(center: Vec3, top: real, radius: real, last: Vec3, current: Vec3, n: int)
    requires n >= 0
    requires forall t :: 0.0 < t <= 1.0 ==> !InFootprint(center, top, radius, Add(last, Scale(t, Sub(current, last))))
    ensures !InFootprint(center, top, radius, current)
    ensures forall i :: 1 <= i <= n ==> !InFootprint(center, top, radius, Sample(last, StepOf(Sub(current, last), n), i))
  {
    assert Add(last, Scale(1.0, Sub(current, last))) == current;
    forall i | 1 <= i <= n
      ensures !InFootprint(center, top, radius, Sample(last, StepOf(Sub(current, last), n), i))
    {
      SampleOnSegment(last, current, n, i);
      var k := (n + 1) as real;
      var t := (i as real) / k;
      assert 0.0 < t <= 1.0 by {
        assert t * k == i as real;
        if t > 1.0 {
          MulStrict(1.0, t, k);
        }
      }
    }
  }
}
