/**
 * The item type descriptors: one immutable record per kind of item, looked
 * up by the type name the level data uses.
 */
module ItemTypes {

  datatype ItemType = ItemType(
    texture: string,
    glId: int,
    collisionDiameter: real,
    hasCollision: bool,
    isFlat: bool,
    isStatic: bool,
    isCollectable: bool)

  const SHRUB: ItemType := ItemType("shrub.webp", 0, 0.6, true, false, true, false)
  const TREE: ItemType := ItemType("snowy_tree1.webp", 1, 0.4, true, false, true, false)
  const FLAG: ItemType := ItemType("flag.webp", 2, 0.0, false, true, false, false)
  const HERRING: ItemType := ItemType("herring.webp", 3, 1.5, false, true, false, true)
  const TREE_BARREN: ItemType := ItemType("tree_barren2.webp", 4, 0.4, true, false, true, false)
  const START: ItemType := ItemType("start.webp", 5, 0.0, false, true, true, false)
  const FINISH: ItemType := ItemType("finish.webp", 6, 0.0, false, true, true, false)
  const ENEMY_PENGUIN: ItemType := ItemType("enemy_penguin.webp", 7, 0.8, true, false, false, false)
  const ENEMY_SNOWMAN: ItemType := ItemType("enemy_snowman.webp", 8, 0.9, true, false, false, false)
  const ENEMY_YETI: ItemType := ItemType("enemy_yeti.webp", 9, 1.0, true, false, false, false)

  /** The table, keyed by type name. */
  const INDEX: map<string, ItemType> := map[
    "SHRUB" := SHRUB,
    "TREE" := TREE,
    "FLAG" := FLAG,
    "HERRING" := HERRING,
    "TREE_BARREN" := TREE_BARREN,
    "START" := START,
    "FINISH" := FINISH,
    "ENEMY_PENGUIN" := ENEMY_PENGUIN,
    "ENEMY_SNOWMAN" := ENEMY_SNOWMAN,
    "ENEMY_YETI" := ENEMY_YETI
  ]

  /** The keys of INDEX in insertion order, the order in which the table is iterated. */
  const NAMES: seq<string> := [
    "SHRUB", "TREE", "FLAG", "HERRING", "TREE_BARREN",
    "START", "FINISH", "ENEMY_PENGUIN", "ENEMY_SNOWMAN", "ENEMY_YETI"
  ]

  /** The texture by which an enemy is recognised as a snowball thrower. */
  const SNOWMAN_TEXTURE: string := "enemy_snowman.webp"

  /** Type names of the hostile kinds start with "ENEMY_". */
  predicate IsEnemyName(name: string) {
    |name| >= 6 && name[..6] == "ENEMY_"
  }

  /** The table has exactly the ten names, listed once each in NAMES. */
  lemma IndexKeys()
    ensures INDEX.Keys == set i | 0 <= i < |NAMES| :: NAMES[i]
    ensures |NAMES| == 10
    ensures forall i, j :: 0 <= i < j < |NAMES| ==> NAMES[i] != NAMES[j]
  {
    var listed := set i | 0 <= i < |NAMES| :: NAMES[i];
    forall n | n in INDEX.Keys ensures n in listed {
      GlIdOf(n);
    }
  }

  /** glId numbers the entries 0..9 in table order, so distinct names have distinct records. */
  lemma GlIdsInTableOrder()
    ensures forall i :: 0 <= i < |NAMES| ==> NAMES[i] in INDEX && INDEX[NAMES[i]].glId == i
    ensures forall a, b :: a in INDEX && b in INDEX && a != b ==> INDEX[a].glId != INDEX[b].glId
  {
    forall a, b | a in INDEX && b in INDEX && a != b
      ensures INDEX[a].glId != INDEX[b].glId
    {
      GlIdOf(a);
      GlIdOf(b);
    }
  }

  /** The glId of a named entry is that name's position in NAMES. */
  lemma GlIdOf(n: string)
    requires n in INDEX
    ensures exists i :: 0 <= i < |NAMES| && NAMES[i] == n && INDEX[n].glId == i
  {
    if n == "SHRUB" { assert NAMES[0] == n; }
    else if n == "TREE" { assert NAMES[1] == n; }
    else if n == "FLAG" { assert NAMES[2] == n; }
    else if n == "HERRING" { assert NAMES[3] == n; }
    else if n == "TREE_BARREN" { assert NAMES[4] == n; }
    else if n == "START" { assert NAMES[5] == n; }
    else if n == "FINISH" { assert NAMES[6] == n; }
    else if n == "ENEMY_PENGUIN" { assert NAMES[7] == n; }
    else if n == "ENEMY_SNOWMAN" { assert NAMES[8] == n; }
    else { assert NAMES[9] == n; }
  }

  /** Every hostile entry collides, moves, is upright and cannot be collected. */
  lemma EnemyEntries()
    ensures forall n :: n in INDEX && IsEnemyName(n) ==>
      INDEX[n].hasCollision && !INDEX[n].isStatic && !INDEX[n].isFlat && !INDEX[n].isCollectable
    ensures forall n :: n in INDEX && IsEnemyName(n) <==>
      n == "ENEMY_PENGUIN" || n == "ENEMY_SNOWMAN" || n == "ENEMY_YETI"
  {
    forall n | n in INDEX
      ensures IsEnemyName(n) <==> n == "ENEMY_PENGUIN" || n == "ENEMY_SNOWMAN" || n == "ENEMY_YETI"
    {
      if |n| >= 6 && n[0] != 'E' {
        assert n[..6][0] != 'E';
      } else if n != "ENEMY_PENGUIN" && n != "ENEMY_SNOWMAN" && n != "ENEMY_YETI" {
        assert |n| < 6;
      } else {
        assert n[..6] == "ENEMY_";
      }
    }
  }

  /** HERRING is the only collectable kind. */
  lemma OnlyHerringCollectable()
    ensures forall n :: n in INDEX ==> (INDEX[n].isCollectable <==> n == "HERRING")
  {
  }

  /** Entries without a footprint never collide. */
  lemma NoFootprintNoCollision()
    ensures forall n :: n in INDEX && INDEX[n].collisionDiameter == 0.0 ==> !INDEX[n].hasCollision
    ensures forall n :: n in INDEX && INDEX[n].collisionDiameter == 0.0 <==>
      n == "FLAG" || n == "START" || n == "FINISH"
  {
  }

  /** The snowman texture identifies exactly the ENEMY_SNOWMAN record. */
  lemma SnowmanTextureUnique()
    ensures forall n :: n in INDEX ==> (INDEX[n].texture == SNOWMAN_TEXTURE <==> n == "ENEMY_SNOWMAN")
    ensures forall t :: t in INDEX.Values ==> (t.texture == SNOWMAN_TEXTURE <==> t == ENEMY_SNOWMAN)
  {
  }
}
