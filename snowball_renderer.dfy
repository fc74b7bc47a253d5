/**
 * What the snowball renderer decides: which snowballs are drawn (active ones
 * within the clipping window round the camera), and the vertex and index
 * buffers of the sphere mesh every snowball is drawn with.
 */
module SnowballRendering {
  import opened Vectors
  import opened Snowballs

  // ---------------------------------------------------------------------
  // Which snowballs are drawn

  /**
   * A snowball is drawn when it is at most `far` in front of the camera
   * (towards negative z) and at most `backward` behind it.
   */
  function IsInClipDistance(s: SnowballState, viewZ: real, far: real, backward: real): (r: bool)
    ensures r <==> viewZ - far <= s.position.z <= viewZ + backward
  {
    if viewZ - s.position.z > far then false else s.position.z - viewZ <= backward
  }

  /** The snowballs a frame draws, in list order: active ones inside the clipping window. */
  function Drawn(states: seq<SnowballState>, viewZ: real, far: real, backward: real): (r: seq<SnowballState>)
    ensures |r| <= |states|
    ensures forall s :: s in r ==> s in states && s.active && IsInClipDistance(s, viewZ, far, backward)
    ensures forall i :: 0 <= i < |states| && states[i].active && IsInClipDistance(states[i], viewZ, far, backward) ==>
      states[i] in r
  {
    if states == [] then []
    else
      var n := |states| - 1;
      var s := states[n];
      Drawn(states[..n], viewZ, far, backward) + (if s.active && IsInClipDistance(s, viewZ, far, backward) then [s] else [])
  }

  /** Widening the clipping window never hides a snowball that was drawn. */
  lemma {:induction false} WiderWindowDrawsMore(states: seq<SnowballState>, viewZ: real, far: real, backward: real,
                                                far': real, backward': real)
    requires far <= far' && backward <= backward'
    ensures forall s :: s in Drawn(states, viewZ, far, backward) ==> s in Drawn(states, viewZ, far', backward')
  {
    if states != [] {
      var n := |states| - 1;
      WiderWindowDrawsMore(states[..n], viewZ, far, backward, far', backward');
    }
  }

  // ---------------------------------------------------------------------
  // Sphere mesh: indices

  /**
   * The six indices of quad (y, x) of a grid `w` quads wide: with a, d the
   * top corners of the quad and b, c the bottom ones (rows of w + 1
   * vertices), the triangles (a, b, d) and (b, c, d).
   */
  function Quad(w: nat, y: nat, x: nat): seq<int> {
    var a := (w + 1) * y + x;
    var b := (w + 1) * (y + 1) + x;
    var c := (w + 1) * (y + 1) + (x + 1);
    var d := (w + 1) * y + (x + 1);
    [a, b, d, b, c, d]
  }

  /** The indices of the first `x` quads of row `y`. */
  function Row(w: nat, y: nat, x: nat): (r: seq<int>)
    ensures |r| == 6 * x
  {
    if x == 0 then [] else Row(w, y, x - 1) + Quad(w, y, x - 1)
  }

  /** The indices of the first `y` rows of quads. */
  function Rows(w: nat, y: nat): (r: seq<int>)
    ensures |r| == 6 * w * y
  {
    if y == 0 then [] else Rows(w, y - 1) + Row(w, y - 1, w)
  }

  /** Quad (y, x) occupies the six entries starting at 6 * x of its row. */
  lemma {:induction false} RowAt(w: nat, y: nat, x: nat, x': nat, k: nat)
    requires x' < x && k < 6
    ensures Row(w, y, x)[6 * x' + k] == Quad(w, y, x')[k]
  {
    if x' < x - 1 {
      RowAt(w, y, x - 1, x', k);
    }
  }

  /** Quad (y, x) occupies the six entries starting at 6 * (w * y + x). */
  lemma {:induction false} RowsAt(w: nat, y: nat, y': nat, x: nat, k: nat)
    requires y' < y && x < w && k < 6
    ensures 6 * (w * y' + x) + k < |Rows(w, y)|
    ensures Rows(w, y)[6 * (w * y' + x) + k] == Quad(w, y', x)[k]
  {
    GridOffset(6, w, y, y', x, k);
    if y' < y - 1 {
      RowsAt(w, y - 1, y', x, k);
    } else {
      RowAt(w, y - 1, w, x, k);
    }
  }

  /**
   * Where entry k of cell x of row y' lies in a buffer of rows of n cells
   * with `size` entries each: before the end of row y - 1 when y' is an
   * earlier row, at offset size * x + k into the last row otherwise.
   */
  lemma GridOffset(size: nat, n: nat, y: nat, y': nat, x: nat, k: nat)
    requires y' < y && x < n && k < size
    ensures size * (n * y' + x) + k < size * n * y
    ensures y' < y - 1 ==> size * (n * y' + x) + k < size * n * (y - 1)
    ensures y' == y - 1 ==> size * (n * y' + x) + k == size * n * (y - 1) + (size * x + k)
  {
    var t := n * y' + x;
    Distribute(n, y', 1);
    Distribute(size, t, 1);
    MulMonotone(n, y' + 1, y);
    MulMonotone(size, t + 1, n * y);
    Associate(size, n, y);
    if y' < y - 1 {
      MulMonotone(n, y' + 1, y - 1);
      MulMonotone(size, t + 1, n * (y - 1));
      Associate(size, n, y - 1);
    } else {
      Distribute(size, n * y', x);
      Associate(size, n, y');
    }
  }

  lemma Distribute(a: nat, b: nat, c: nat)
    ensures a * (b + c) == a * b + a * c
  {
  }

  lemma Associate(a: nat, b: nat, c: nat)
    ensures a * (b * c) == a * b * c
  {
  }

  lemma MulMonotone(a: nat, b: nat, c: nat)
    requires b <= c
    ensures a * b <= a * c
  {
  }

  /** Every index of a quad names a vertex of the rows y and y + 1. */
  lemma QuadBound(w: nat, y: nat, x: nat)
    requires x < w
    ensures forall k :: 0 <= k < 6 ==> 0 <= Quad(w, y, x)[k] < (w + 1) * (y + 2)
  {
    assert (w + 1) * (y + 2) == (w + 1) * (y + 1) + w + 1;
    assert (w + 1) * y <= (w + 1) * (y + 1);
  }

  /** The indices of row `y` stay below the first vertex of row y + 2. */
  lemma {:induction false} RowBound(w: nat, y: nat, x: nat)
    requires x <= w
    ensures forall i :: 0 <= i < |Row(w, y, x)| ==> 0 <= Row(w, y, x)[i] < (w + 1) * (y + 2)
  {
    if x > 0 {
      RowBound(w, y, x - 1);
      QuadBound(w, y, x - 1);
      assert Row(w, y, x) == Row(w, y, x - 1) + Quad(w, y, x - 1);
    }
  }

  /** The indices of `y` rows of quads name vertices of the first y + 1 rows. */
  lemma {:induction false} RowsBound(w: nat, y: nat)
    ensures forall i :: 0 <= i < |Rows(w, y)| ==> 0 <= Rows(w, y)[i] < (w + 1) * (y + 1)
  {
    if y > 0 {
      RowsBound(w, y - 1);
      RowBound(w, y - 1, w);
      assert (w + 1) * y <= (w + 1) * (y + 1);
      assert Rows(w, y) == Rows(w, y - 1) + Row(w, y - 1, w);
    }
  }

  // ---------------------------------------------------------------------
  // Sphere mesh: positions

  /** The three coordinates of a vertex, as they are pushed. */
  function Coords(p: Vec3): seq<real> {
    [p.x, p.y, p.z]
  }

  /** The coordinates of the first `x` vertices of ring `y`. */
  function Ring(vertex: (int, int) -> Vec3, y: nat, x: nat): (r: seq<real>)
    ensures |r| == 3 * x
  {
    if x == 0 then [] else Ring(vertex, y, x - 1) + Coords(vertex(y, x - 1))
  }

  /** The coordinates of the first `y` rings of w + 1 vertices each. */
  function Rings(vertex: (int, int) -> Vec3, w: nat, y: nat): (r: seq<real>)
    ensures |r| == 3 * (w + 1) * y
  {
    if y == 0 then [] else Rings(vertex, w, y - 1) + Ring(vertex, y - 1, w + 1)
  }

  /** Vertex x of ring y is vertex number (w + 1) * y + x: its coordinates start at three times that. */
  lemma {:induction false} RingsAt(vertex: (int, int) -> Vec3, w: nat, y: nat, y': nat, x: nat, k: nat)
    requires y' < y && x <= w && k < 3
    ensures 3 * ((w + 1) * y' + x) + k < |Rings(vertex, w, y)|
    ensures Rings(vertex, w, y)[3 * ((w + 1) * y' + x) + k] == Coords(vertex(y', x))[k]
  {
    GridOffset(3, w + 1, y, y', x, k);
    if y' < y - 1 {
      RingsAt(vertex, w, y - 1, y', x, k);
    } else {
      RingAt(vertex, y - 1, w + 1, x, k);
    }
  }

  /** Vertex x' of a ring has its coordinates at 3 * x' within the ring. */
  lemma {:induction false} RingAt(vertex: (int, int) -> Vec3, y: nat, x: nat, x': nat, k: nat)
    requires x' < x && k < 3
    ensures Ring(vertex, y, x)[3 * x' + k] == Coords(vertex(y, x'))[k]
  {
    if x' < x - 1 {
      RingAt(vertex, y, x - 1, x', k);
    }
  }

  // ---------------------------------------------------------------------
  // The builder

  /**
   * Builds the sphere buffers: h + 1 rings of w + 1 vertices (row-major,
   * three coordinates each), then two triangles per quad of the w by h grid.
   * `vertex(y, x)` is the point on the sphere at ring y, segment x.
   */
  method CreateSphereGeometry(w: nat, h: nat, vertex: (int, int) -> Vec3)
    returns (positions: seq<real>, indices: seq<int>)
    ensures positions == Rings(vertex, w, h + 1) && |positions| == 3 * (w + 1) * (h + 1)
    ensures indices == Rows(w, h) && |indices| == 6 * w * h
    ensures forall i :: 0 <= i < |indices| ==> 0 <= indices[i] < (w + 1) * (h + 1)
  {
    positions := SpherePositions(w, h, vertex);
    indices := SphereIndices(w, h);
  }

  /** The vertex loop of the builder: ring by ring, segment by segment. */
  method SpherePositions(w: nat, h: nat, vertex: (int, int) -> Vec3) returns (positions: seq<real>)
    ensures positions == Rings(vertex, w, h + 1)
  {
    positions := [];
    var y := 0;
    while y <= h
      invariant 0 <= y <= h + 1
      invariant positions == Rings(vertex, w, y)
    {
      var x := 0;
      while x <= w
        invariant 0 <= x <= w + 1
        invariant positions == Rings(vertex, w, y) + Ring(vertex, y, x)
      {
        var p := vertex(y, x);
        assert [p.x, p.y, p.z] == Coords(vertex(y, x));
        positions := positions + [p.x, p.y, p.z];
        x := x + 1;
      }
      y := y + 1;
    }
  }

  /** The index loop of the builder: quad by quad, two triangles each. */
  method SphereIndices(w: nat, h: nat) returns (indices: seq<int>)
    ensures indices == Rows(w, h)
    ensures forall i :: 0 <= i < |indices| ==> 0 <= indices[i] < (w + 1) * (h + 1)
  {
    indices := [];
    var y := 0;
    while y < h
      invariant 0 <= y <= h
      invariant indices == Rows(w, y)
    {
      var x := 0;
      while x < w
        invariant 0 <= x <= w
        invariant indices == Rows(w, y) + Row(w, y, x)
      {
        var a := (w + 1) * y + x;
        var b := (w + 1) * (y + 1) + x;
        var c := (w + 1) * (y + 1) + (x + 1);
        var d := (w + 1) * y + (x + 1);
        assert [a, b, d] + [b, c, d] == Quad(w, y, x);
        indices := indices + [a, b, d];
        indices := indices + [b, c, d];
        x := x + 1;
      }
      y := y + 1;
    }
    RowsBound(w, h);
  }
}
