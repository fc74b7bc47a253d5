/**
 * The shared game context the entities read: the course (its size and its
 * terrain height) and the player.
 */
module World {
  import opened Vectors

  /**
   * Course configuration and terrain. `findY` gives the terrain height at
   * (x, z); `numFieldsX` and `numFieldsY` are the size of the level grid.
   */
  datatype Course = Course(
    width: real,
    playWidth: real,
    length: real,
    numFieldsX: real,
    numFieldsY: real,
    findY: (real, real) -> real)

  /** Width of the lateral strip on each side of the playable part. */
  function BoundaryWidth(c: Course): real {
    (c.width - c.playWidth) / 2.0
  }

  /** The lateral interval entities are kept in. */
  predicate WithinLateralBounds(c: Course, x: real) {
    BoundaryWidth(c) <= x <= c.width - BoundaryWidth(c)
  }

  /**
   * The player as far as the items see it. Only `velocity` is written by
   * this model (the knockback of a snowball hit).
   */
  class Player {
    var position: Vec3
    var velocity: Vec3
    var isAirborne: bool

    constructor (position: Vec3, velocity: Vec3, isAirborne: bool)
      ensures this.position == position && this.velocity == velocity
      ensures this.isAirborne == isAirborne
    {
      this.position := position;
      this.velocity := velocity;
      this.isAirborne := isAirborne;
    }
  }
}
