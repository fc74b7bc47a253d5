/**
 * Building items from level data: the type name is looked up in the type
 * table, the grid coordinates are mapped to world coordinates, hostile
 * kinds get an enemy configuration with defaults, and the built items are
 * grouped by type.
 */
module ItemsLoader {
  import opened Wrappers
  import opened Vectors
  import opened World
  import opened ItemTypes
  import opened Items
  import opened Enemies

  /** One entry of the level data; the optional fields only matter for enemies. */
  datatype ItemDto = ItemDto(
    typeName: string,
    x: real,
    z: real,
    height: real,
    diameter: real,
    movementPattern: Option<string>,
    speed: Option<real>,
    patrolEndX: Option<real>,
    patrolEndZ: Option<real>,
    radius: Option<real>,
    angularSpeed: Option<real>,
    detectionRadius: Option<real>)

  /** A built item: an ordinary one or an enemy (whose item part is `body`). */
  datatype Loaded = Plain(item: Item) | Hostile(enemy: Enemy)

  /** The item part of a built item, which is what gets grouped by type. */
  function BodyOf(l: Loaded): Item {
    match l
    case Plain(item) => item
    case Hostile(enemy) => enemy.body
  }

  const DEFAULT_SPEED: real := 5.0

  // ---------------------------------------------------------------------
  // Type lookup

  /** The table entry for a type name; any name outside the table is an error. */
  function MapToType(typeName: string): (r: Result<ItemType, string>)
    ensures r.Success? <==> typeName in INDEX
    ensures r.Success? ==> r.value == INDEX[typeName]
    ensures r.Failure? ==> r.error == "Unknown item type: " + typeName
  {
    if typeName in INDEX then Success(INDEX[typeName]) else Failure("Unknown item type: " + typeName)
  }

  /**
   * A name that only looks hostile is still unknown, because the lookup
   * comes first: of the names starting with "ENEMY_", exactly the three
   * tabled enemies resolve, and every other one is the unknown-type error.
   */
  lemma UnknownEnemyNameFails(n: string)
    requires IsEnemyName(n)
    ensures MapToType(n).Success? <==> n == "ENEMY_PENGUIN" || n == "ENEMY_SNOWMAN" || n == "ENEMY_YETI"
    ensures n !in INDEX ==> MapToType(n) == Failure("Unknown item type: " + n)
  {
    EnemyEntries();
  }

  /** Such names exist: "ENEMY_DRAGON" starts with "ENEMY_" and is not in the table. */
  lemma EnemyLookalikeExists()
    ensures IsEnemyName("ENEMY_DRAGON") && "ENEMY_DRAGON" !in INDEX
  {
    assert "ENEMY_DRAGON"[..6] == "ENEMY_";
    var n := "ENEMY_DRAGON";
    assert n != "ENEMY_PENGUIN" && n != "ENEMY_SNOWMAN" && n != "ENEMY_YETI" by {
      assert n[6] == 'D';
      assert "ENEMY_PENGUIN"[6] == 'P' && "ENEMY_SNOWMAN"[6] == 'S' && "ENEMY_YETI"[6] == 'Y';
    }
  }

  // ---------------------------------------------------------------------
  // Movement pattern

  /** The string level data uses for each pattern. */
  function PatternName(p: MovementPattern): string {
    match p
    case Patrolling => "patrolling"
    case Circular => "circular"
    case Following => "following"
  }

  /**
   * The pattern an enemy gets. A non-empty pattern string is decoded, an
   * unrecognised one as patrolling; an absent or empty one defaults by the
   * enemy's type.
   */
  function GetMovementPattern(dto: ItemDto): (p: MovementPattern)
    ensures dto.movementPattern.Some? && dto.movementPattern.value != "" ==>
      (p == Circular <==> dto.movementPattern.value == "circular") &&
      (p == Following <==> dto.movementPattern.value == "following")
    ensures dto.movementPattern.None? || dto.movementPattern.value == "" ==>
      (p == Circular <==> dto.typeName == "ENEMY_SNOWMAN") &&
      (p == Following <==> dto.typeName == "ENEMY_YETI")
  {
    if dto.movementPattern.Some? && dto.movementPattern.value != "" then
      match dto.movementPattern.value
      case "patrolling" => Patrolling
      case "circular" => Circular
      case "following" => Following
      case _ => Patrolling
    else
      match dto.typeName
      case "ENEMY_PENGUIN" => Patrolling
      case "ENEMY_SNOWMAN" => Circular
      case "ENEMY_YETI" => Following
      case _ => Patrolling
  }

  /** Every pattern survives being written out by name and read back. */
  lemma PatternNameRoundTrip(dto: ItemDto, p: MovementPattern)
    ensures GetMovementPattern(dto.(movementPattern := Some(PatternName(p)))) == p
  {
  }

  /** Without a pattern string each table enemy gets its own kind of movement. */
  lemma DefaultPatternsByType(dto: ItemDto)
    requires dto.movementPattern.None? || dto.movementPattern == Some("")
    requires dto.typeName in INDEX && IsEnemyName(dto.typeName)
    ensures dto.typeName == "ENEMY_PENGUIN" ==> GetMovementPattern(dto) == Patrolling
    ensures dto.typeName == "ENEMY_SNOWMAN" ==> GetMovementPattern(dto) == Circular
    ensures dto.typeName == "ENEMY_YETI" ==> GetMovementPattern(dto) == Following
  {
    EnemyEntries();
  }

  // ---------------------------------------------------------------------
  // Grid coordinates

  /**
   * Grid field (x, z) to world coordinates: field numFieldsX is at x = 0,
   * field 1 at x = width; field numFieldsY is at z = 0, field 1 at
   * z = -length; y is the terrain height there.
   */
  function ComputeItemPosition(dto: ItemDto, course: Course): (r: Vec3)
    requires course.numFieldsX != 1.0 && course.numFieldsY != 1.0
    ensures r.y == course.findY(r.x, r.z)
    ensures dto.x == course.numFieldsX ==> r.x == 0.0
    ensures dto.x == 1.0 ==> r.x == course.width
    ensures dto.z == course.numFieldsY ==> r.z == 0.0
    ensures dto.z == 1.0 ==> r.z == -course.length
  {
    GridEnds(course.numFieldsX, dto.x, course.width);
    GridEnds(course.numFieldsY, dto.z, course.length);
    var x := (course.numFieldsX - dto.x) / (course.numFieldsX - 1.0) * course.width;
    var z := -((course.numFieldsY - dto.z) / (course.numFieldsY - 1.0)) * course.length;
    Vec3(x, course.findY(x, z), z)
  }

  /** The first and the last field of a grid axis of `n` fields map to the two ends of a side of length `w`. */
  lemma GridEnds(n: real, f: real, w: real)
    requires n != 1.0
    ensures f == n ==> (n - f) / (n - 1.0) * w == 0.0
    ensures f == 1.0 ==> (n - f) / (n - 1.0) * w == w
  {
    if f == n {
      var k := n - 1.0;
      assert n - f == 0.0 && k != 0.0;
      assert 0.0 / k == 0.0;
    }
    if f == 1.0 {
      var k := n - 1.0;
      assert n - f == k && k != 0.0;
      assert k / k == 1.0;
    }
  }

  /** The grid column a world x lies in: the inverse of the x mapping. */
  function FieldX(course: Course, x: real): real
    requires course.width != 0.0
  {
    course.numFieldsX - x / course.width * (course.numFieldsX - 1.0)
  }

  /** The grid row a world z lies in: the inverse of the z mapping. */
  function FieldZ(course: Course, z: real): real
    requires course.length != 0.0
  {
    course.numFieldsY + z / course.length * (course.numFieldsY - 1.0)
  }

  /** On a course of non-zero size the grid position can be read back from the world position. */
  lemma GridRoundTrip(dto: ItemDto, course: Course)
    requires course.numFieldsX != 1.0 && course.numFieldsY != 1.0
    requires course.width != 0.0 && course.length != 0.0
    ensures FieldX(course, ComputeItemPosition(dto, course).x) == dto.x
    ensures FieldZ(course, ComputeItemPosition(dto, course).z) == dto.z
  {
    var r := ComputeItemPosition(dto, course);
    Unscale(course.numFieldsX - dto.x, course.numFieldsX - 1.0, course.width);
    Unscale(course.numFieldsY - dto.z, course.numFieldsY - 1.0, course.length);
    assert r.z / course.length == -((course.numFieldsY - dto.z) / (course.numFieldsY - 1.0));
  }

  /** Scaling a quotient by `w` and dividing by `w` again gives the quotient back. */
  lemma Unscale(a: real, d: real, w: real)
    requires d != 0.0 && w != 0.0
    ensures a / d * w / w * d == a
    ensures -(a / d) * w / w == -(a / d)
  {
  }

  // ---------------------------------------------------------------------
  // Enemy configuration

  /**
   * The configuration level data gives an enemy created at `position`.
   * Numbers use JavaScript's `||` default, so a zero counts as absent.
   */
  method CreateEnemyConfig(dto: ItemDto, position: Vec3, course: Course) returns (config: EnemyConfig)
    requires course.numFieldsX != 1.0 && course.numFieldsY != 1.0
    ensures config.movementPattern == GetMovementPattern(dto)
    ensures config.speed == OrNumber(dto.speed, DEFAULT_SPEED) && config.speed != 0.0
    ensures config.patrolStart.Some? <==>
      config.movementPattern == Patrolling && dto.patrolEndX.Some? && dto.patrolEndZ.Some?
    ensures config.patrolStart.Some? ==>
      && config.patrolStart.value == position
      && config.patrolEnd == Some(ComputeItemPosition(dto.(x := dto.patrolEndX.value, z := dto.patrolEndZ.value), course))
    ensures config.patrolStart.None? ==> config.patrolEnd.None?
    ensures config.movementPattern == Circular <==> config.centerPoint.Some?
    ensures config.movementPattern == Circular ==>
      && config.centerPoint == Some(position)
      && config.radius == Some(OrNumber(dto.radius, DEFAULT_RADIUS))
      && config.angularSpeed == Some(OrNumber(dto.angularSpeed, DEFAULT_ANGULAR_SPEED))
    ensures config.movementPattern != Circular ==> config.radius.None? && config.angularSpeed.None?
    ensures config.movementPattern == Following <==> config.returnSpeed.Some?
    ensures config.movementPattern == Following ==>
      && config.detectionRadius == Some(OrNumber(dto.detectionRadius, DEFAULT_DETECTION_RADIUS))
      && config.returnSpeed == Some(config.speed * 0.5)
    ensures config.movementPattern != Following ==> config.detectionRadius.None?
  {
    config := EnemyConfig(GetMovementPattern(dto), OrNumber(dto.speed, DEFAULT_SPEED),
                          None, None, None, None, None, None, None);
    if config.movementPattern == Patrolling {
      if dto.patrolEndX.Some? && dto.patrolEndZ.Some? {
        var endPosition := ComputeItemPosition(dto.(x := dto.patrolEndX.value, z := dto.patrolEndZ.value), course);
        config := config.(patrolStart := Some(position), patrolEnd := Some(endPosition));
      }
    }
    if config.movementPattern == Circular {
      config := config.(centerPoint := Some(position),
                        radius := Some(OrNumber(dto.radius, DEFAULT_RADIUS)),
                        angularSpeed := Some(OrNumber(dto.angularSpeed, DEFAULT_ANGULAR_SPEED)));
    }
    if config.movementPattern == Following {
      config := config.(detectionRadius := Some(OrNumber(dto.detectionRadius, DEFAULT_DETECTION_RADIUS)),
                        returnSpeed := Some(OrNumber(dto.speed, DEFAULT_SPEED) * 0.5));
    }
  }

  // ---------------------------------------------------------------------
  // Building one item

  /**
   * Builds the item for one entry: an unknown type name is an error; a name
   * starting with "ENEMY_" gives an enemy configured from the entry, any
   * other name a plain item. Either way the item sits at the mapped grid
   * position with the entry's type, height and diameter.
   */
  method MapToItem(dto: ItemDto, course: Course) returns (r: Result<Loaded, string>)
    requires course.numFieldsX != 1.0 && course.numFieldsY != 1.0
    ensures r.Success? <==> dto.typeName in INDEX
    ensures r.Failure? ==> r.error == "Unknown item type: " + dto.typeName
    ensures r.Success? ==> (r.value.Hostile? <==> IsEnemyName(dto.typeName))
    ensures r.Success? ==>
      var item := BodyOf(r.value);
      && item.itemType == INDEX[dto.typeName]
      && item.position == ComputeItemPosition(dto, course)
      && item.height == dto.height && item.diameter == dto.diameter
      && item.velocity == ZERO && !item.isCollected
    ensures r.Success? && r.value.Hostile? ==>
      var e := r.value.enemy;
      && e.Valid() && e.snowballs == [] && e.throwCooldown == 0.0 && !e.isFollowing
      && e.behaviour.pattern == GetMovementPattern(dto)
      && e.behaviour.speed == OrNumber(dto.speed, DEFAULT_SPEED)
      && e.movingToEnd && e.angle == 0.0 && e.time == 0.0 && e.animationTime == 0.0
    ensures r.Success? && r.value.Hostile? ==>
      var b, position := r.value.enemy.behaviour, ComputeItemPosition(dto, course);
      && b.patrolStart == position
      && b.patrolEnd ==
           (if b.pattern == Patrolling && dto.patrolEndX.Some? && dto.patrolEndZ.Some?
            then ComputeItemPosition(dto.(x := dto.patrolEndX.value, z := dto.patrolEndZ.value), course)
            else position.(x := position.x + DEFAULT_PATROL_LENGTH))
      && b.centerPoint == position
      && b.radius == (if b.pattern == Circular then OrNumber(dto.radius, DEFAULT_RADIUS) else DEFAULT_RADIUS)
      && b.angularSpeed ==
           (if b.pattern == Circular then OrNumber(dto.angularSpeed, DEFAULT_ANGULAR_SPEED) else DEFAULT_ANGULAR_SPEED)
      && b.detectionRadius ==
           (if b.pattern == Following then OrNumber(dto.detectionRadius, DEFAULT_DETECTION_RADIUS)
            else DEFAULT_DETECTION_RADIUS)
      && b.returnSpeed == b.speed * 0.5
  {
    var t := MapToType(dto.typeName);
    if t.Failure? {
      return Failure(t.error);
    }
    var position := ComputeItemPosition(dto, course);
    if IsEnemyName(dto.typeName) {
      var config := CreateEnemyConfig(dto, position, course);
      var enemy := new Enemy(t.value, position, dto.height, dto.diameter, config);
      return Success(Hostile(enemy));
    }
    var item := new Item(t.value, position, dto.height, dto.diameter);
    return Success(Plain(item));
  }

  // ---------------------------------------------------------------------
  // Grouping

  /** The items of type `t`, in their original order. */
  function OfType(items: seq<Item>, t: ItemType): (r: seq<Item>)
    ensures |r| <= |items|
    ensures forall item :: item in r ==> item in items && item.itemType == t
    ensures forall i :: 0 <= i < |items| && items[i].itemType == t ==> items[i] in r
  {
    if items == [] then []
    else
      var n := |items| - 1;
      OfType(items[..n], t) + (if items[n].itemType == t then [items[n]] else [])
  }

  /** Selecting by type commutes with concatenation, so the input order is kept. */
  lemma {:induction false} OfTypeAppend(xs: seq<Item>, ys: seq<Item>, t: ItemType)
    ensures OfType(xs + ys, t) == OfType(xs, t) + OfType(ys, t)
    decreases |ys|
  {
    if ys == [] {
      assert xs + ys == xs;
    } else {
      var n := |ys| - 1;
      assert (xs + ys)[..|xs + ys| - 1] == xs + ys[..n];
      OfTypeAppend(xs, ys[..n], t);
    }
  }

  /** The table's records, in table order. */
  function TypesUpTo(k: nat): set<ItemType>
    requires k <= |NAMES|
  {
    set j | 0 <= j < k && NAMES[j] in INDEX :: INDEX[NAMES[j]]
  }

  /** Walking the whole name list visits every record of the table. */
  lemma AllTypesVisited()
    ensures TypesUpTo(|NAMES|) == INDEX.Values
  {
    IndexKeys();
    forall t | t in INDEX.Values ensures t in TypesUpTo(|NAMES|) {
      var n :| n in INDEX && INDEX[n] == t;
      GlIdOf(n);
    }
  }

  /**
   * The items grouped by table type: a type is a key exactly when some item
   * has it, and then maps to all items of that type in input order.
   */
  method GroupItemsByType(items: seq<Item>) returns (groups: map<ItemType, seq<Item>>)
    ensures forall t :: t in groups <==> t in INDEX.Values && OfType(items, t) != []
    ensures forall t :: t in groups ==> groups[t] == OfType(items, t)
  {
    groups := map[];
    var k := 0;
    IndexKeys();
    while k < |NAMES|
      invariant 0 <= k <= |NAMES|
      invariant forall t :: t in groups <==> t in TypesUpTo(k) && OfType(items, t) != []
      invariant forall t :: t in groups ==> groups[t] == OfType(items, t)
    {
      var itemType := INDEX[NAMES[k]];
      var itemsByType := OfType(items, itemType);
      if |itemsByType| > 0 {
        groups := groups[itemType := itemsByType];
      }
      assert TypesUpTo(k + 1) == TypesUpTo(k) + {itemType};
      k := k + 1;
    }
    AllTypesVisited();
  }

  /**
   * Grouping over a set of types partitions the items of those types: each
   * such item lands in its own type's group, and a group holds only input
   * items of its type.
   */
  lemma GroupsPartition(items: seq<Item>, groups: map<ItemType, seq<Item>>, types: set<ItemType>)
    requires forall t :: t in groups <==> t in types && OfType(items, t) != []
    requires forall t :: t in groups ==> groups[t] == OfType(items, t)
    ensures forall i :: 0 <= i < |items| && items[i].itemType in types ==>
      items[i].itemType in groups && items[i] in groups[items[i].itemType]
    ensures forall t, item :: t in groups && item in groups[t] ==> item in items && item.itemType == t
  {
    forall i | 0 <= i < |items| && items[i].itemType in types
      ensures items[i].itemType in groups && items[i] in groups[items[i].itemType]
    {
      assert items[i] in OfType(items, items[i].itemType);
    }
  }
}
