/**
 * `_clutter_marker`: every listed clutter gate is widened to the disk of
 * gates within `radius` of it. The source works on a copy of the grid
 * padded by `radius` cells of -999 on every side, ORs the disk into the
 * window around each (shifted) coordinate in place, then crops the padding
 * away and attaches the mask of the ratio grid.
 *
 * `Dilate` is the reference definition of the result; `ClutterMarker`
 * is the in-place algorithm, proved to compute it.
 */
module ClutterMarker {
  import opened Grids

  /** Offset `(dx, dy)` lies in the disk `dx^2 + dy^2 <= radius^2`. */
  predicate InDisk(dx: int, dy: int, radius: nat)
  {
    dx * dx + dy * dy <= radius * radius
  }

  /** Gate `(i, j)` is within `radius` of the listed gate `c`. */
  predicate Near(c: Coord, i: int, j: int, radius: nat)
  {
    InDisk(i - c.ray, j - c.gate, radius)
  }

  /** Gate `(i, j)` is within `radius` of some gate of `cs`. */
  predicate Covered(cs: seq<Coord>, i: int, j: int, radius: nat)
  {
    cs != [] && (Covered(cs[..|cs| - 1], i, j, radius) || Near(cs[|cs| - 1], i, j, radius))
  }

  /** `Covered` says that some listed gate is near. */
  lemma {:induction false} CoveredIff(cs: seq<Coord>, i: int, j: int, radius: nat)
    ensures Covered(cs, i, j, radius) <==> exists k :: 0 <= k < |cs| && Near(cs[k], i, j, radius)
  {
    if cs != [] {
      var init := cs[..|cs| - 1];
      CoveredIff(init, i, j, radius);
      if Covered(init, i, j, radius) {
        var k :| 0 <= k < |init| && Near(init[k], i, j, radius);
        assert cs[k] == init[k];
      }
      if exists k :: 0 <= k < |cs| && Near(cs[k], i, j, radius) {
        var k :| 0 <= k < |cs| && Near(cs[k], i, j, radius);
        if k < |init| {
          assert init[k] == cs[k];
        }
      }
    }
  }

  /** The marker grid: 1 at every gate within `radius` of a listed gate, 0 elsewhere. */
  function Dilate(cs: seq<Coord>, rows: nat, cols: nat, radius: nat): (g: seq<seq<int>>)
    ensures Shaped(g, rows, cols)
    ensures forall i, j :: 0 <= i < rows && 0 <= j < cols ==> g[i][j] == 0 || g[i][j] == 1
  {
    seq(rows, i => seq(cols, j => if Covered(cs, i, j, radius) then 1 else 0))
  }

  /** A gate is marked iff some listed gate lies within `radius` of it. */
  lemma DilateIff(cs: seq<Coord>, rows: nat, cols: nat, radius: nat, i: nat, j: nat)
    requires i < rows && j < cols
    ensures Dilate(cs, rows, cols, radius)[i][j] == 1 <==> exists k :: 0 <= k < |cs| && Near(cs[k], i, j, radius)
  {
    CoveredIff(cs, i, j, radius);
  }

  /** Every listed gate inside the grid is itself marked. */
  lemma ListedFlagged(cs: seq<Coord>, rows: nat, cols: nat, radius: nat, k: nat)
    requires k < |cs| && cs[k].ray < rows && cs[k].gate < cols
    ensures Dilate(cs, rows, cols, radius)[cs[k].ray][cs[k].gate] == 1
  {
    assert Near(cs[k], cs[k].ray, cs[k].gate, radius);
    CoveredIff(cs, cs[k].ray, cs[k].gate, radius);
  }

  /** The disk of radius 0 is the single offset (0, 0). */
  lemma DiskZero(dx: int, dy: int)
    ensures InDisk(dx, dy, 0) <==> dx == 0 && dy == 0
  {
    if dx != 0 {
      assert dx * dx > 0;
    }
    if dy != 0 {
      assert dy * dy > 0;
    }
  }

  /** With radius 0 exactly the listed gates are marked. */
  lemma RadiusZeroExact(cs: seq<Coord>, rows: nat, cols: nat, i: nat, j: nat)
    requires i < rows && j < cols
    ensures Dilate(cs, rows, cols, 0)[i][j] == 1 <==> Coord(i, j) in cs
  {
    CoveredIff(cs, i, j, 0);
    if Coord(i, j) in cs {
      var k :| 0 <= k < |cs| && cs[k] == Coord(i, j);
      DiskZero(i - cs[k].ray, j - cs[k].gate);
    }
    if exists k :: 0 <= k < |cs| && Near(cs[k], i, j, 0) {
      var k :| 0 <= k < |cs| && Near(cs[k], i, j, 0);
      DiskZero(i - cs[k].ray, j - cs[k].gate);
      assert cs[k] == Coord(i, j);
    }
  }

  /** The marker depends only on which gates are listed, not on their order or repetitions. */
  lemma SetIndependence(cs: seq<Coord>, ds: seq<Coord>, rows: nat, cols: nat, radius: nat)
    requires forall c :: c in cs <==> c in ds
    ensures Dilate(cs, rows, cols, radius) == Dilate(ds, rows, cols, radius)
  {
    var g, h := Dilate(cs, rows, cols, radius), Dilate(ds, rows, cols, radius);
    forall i, j | 0 <= i < rows && 0 <= j < cols
      ensures g[i][j] == h[i][j]
    {
      CoveredIff(cs, i, j, radius);
      CoveredIff(ds, i, j, radius);
      if exists k :: 0 <= k < |cs| && Near(cs[k], i, j, radius) {
        var k :| 0 <= k < |cs| && Near(cs[k], i, j, radius);
        assert cs[k] in ds;
      }
      if exists k :: 0 <= k < |ds| && Near(ds[k], i, j, radius) {
        var k :| 0 <= k < |ds| && Near(ds[k], i, j, radius);
        assert ds[k] in cs;
      }
    }
    GridExt(g, h);
  }

  /** A larger disk contains a smaller one. */
  lemma DiskMonotone(dx: int, dy: int, r1: nat, r2: nat)
    requires r1 <= r2 && InDisk(dx, dy, r1)
    ensures InDisk(dx, dy, r2)
  {
    assert r1 * r1 <= r1 * r2 <= r2 * r2;
  }

  /** Growing the radius never unmarks a gate. */
  lemma {:induction false} MonotoneRadius(cs: seq<Coord>, rows: nat, cols: nat, r1: nat, r2: nat, i: nat, j: nat)
    requires r1 <= r2 && i < rows && j < cols
    ensures Dilate(cs, rows, cols, r1)[i][j] == 1 ==> Dilate(cs, rows, cols, r2)[i][j] == 1
  {
    CoveredIff(cs, i, j, r1);
    CoveredIff(cs, i, j, r2);
    if Covered(cs, i, j, r1) {
      var k :| 0 <= k < |cs| && Near(cs[k], i, j, r1);
      DiskMonotone(i - cs[k].ray, j - cs[k].gate, r1, r2);
    }
  }

  // The padded working array.

  /** Cell `(p, q)` of the padded array lies in the original grid. */
  predicate Inner(p: int, q: int, rows: nat, cols: nat, radius: nat)
  {
    radius <= p < rows + radius && radius <= q < cols + radius
  }

  /** `np.pad(zeros, radius, constant_values=-999)`. */
  function PadValue(p: int, q: int, rows: nat, cols: nat, radius: nat): (v: int)
    ensures v == 0 <==> Inner(p, q, rows, cols, radius)
    ensures v == 0 || v == -999
  {
    if Inner(p, q, rows, cols, radius) then 0 else -999
  }

  /** The square window `temp[ray - radius : ray + radius + 1, gate - radius : gate + radius + 1]` around the shifted gate `c`. */
  predicate InWindow(p: int, q: int, c: Coord, radius: nat)
  {
    c.ray <= p <= c.ray + 2 * radius && c.gate <= q <= c.gate + 2 * radius
  }

  /**
   * The padded cell `(p, q)`, holding `v`, after the window around `c`
   * has been replaced by `logical_or(window, circle)`: inside the window a
   * nonzero cell (a mark or the -999 padding) or a disk cell becomes 1,
   * any other cell 0.
   */
  function Stamp(v: int, p: int, q: int, c: Coord, radius: nat): (r: int)
    ensures !InWindow(p, q, c, radius) ==> r == v
    ensures InWindow(p, q, c, radius) ==> r == 0 || r == 1
    ensures InWindow(p, q, c, radius) && v != 0 ==> r == 1
  {
    if InWindow(p, q, c, radius) then
      (if v != 0 || InDisk(p - c.ray - radius, q - c.gate - radius, radius) then 1 else 0)
    else v
  }

  /** The padded cell `(p, q)` once the gates of `cs` have been stamped in turn. */
  function Painted(cs: seq<Coord>, p: int, q: int, rows: nat, cols: nat, radius: nat): (r: int)
    ensures r == 0 || r == 1 || r == -999
    ensures Inner(p, q, rows, cols, radius) ==> r == 0 || r == 1
  {
    if cs == [] then PadValue(p, q, rows, cols, radius)
    else Stamp(Painted(cs[..|cs| - 1], p, q, rows, cols, radius), p, q, cs[|cs| - 1], radius)
  }

  /** An offset beyond `radius` squares to more than `radius` squared. */
  lemma SquareBeyond(d: int, radius: nat)
    requires d > radius || -d > radius
    ensures d * d > radius * radius
  {
    var a := if d < 0 then -d else d;
    assert a * a == d * d;
    assert a >= radius + 1;
    assert a * a >= a * (radius + 1) >= (radius + 1) * (radius + 1);
  }

  /** Outside its window a gate's disk is empty. */
  lemma DiskInWindow(dx: int, dy: int, radius: nat)
    requires InDisk(dx, dy, radius)
    ensures -(radius as int) <= dx <= radius && -(radius as int) <= dy <= radius
  {
    if dx > radius || -dx > radius {
      SquareBeyond(dx, radius);
    }
    if dy > radius || -dy > radius {
      SquareBeyond(dy, radius);
    }
  }

  /** The padding stamping leaves inside the grid is exactly the marker. */
  lemma {:induction false} PaintedInner(cs: seq<Coord>, p: int, q: int, rows: nat, cols: nat, radius: nat)
    requires Inner(p, q, rows, cols, radius)
    ensures Painted(cs, p, q, rows, cols, radius) == if Covered(cs, p - radius, q - radius, radius) then 1 else 0
  {
    if cs != [] {
      var c := cs[|cs| - 1];
      PaintedInner(cs[..|cs| - 1], p, q, rows, cols, radius);
      if !InWindow(p, q, c, radius) && InDisk(p - c.ray - radius, q - c.gate - radius, radius) {
        DiskInWindow(p - c.ray - radius, q - c.gate - radius, radius);
      }
    }
  }

  /** A mask of the ratio grid attached to the marker values. */
  datatype MaskedGrid = MaskedGrid(data: seq<seq<int>>, mask: seq<seq<bool>>)

  /**
   * ORs the disk into the window of the padded array around the shifted
   * gate `c`; `circle` is the disk as a `2 radius + 1` square.
   */
  method StampWindow(temp: array2<int>, c: Coord, radius: nat, circle: array2<bool>)
    requires temp != circle as object
    requires c.ray + 2 * radius < temp.Length0 && c.gate + 2 * radius < temp.Length1
    requires circle.Length0 == 2 * radius + 1 && circle.Length1 == 2 * radius + 1
    requires forall a, b :: 0 <= a < circle.Length0 && 0 <= b < circle.Length1 ==>
               circle[a, b] == InDisk(a - radius, b - radius, radius)
    modifies temp
    ensures forall p, q :: 0 <= p < temp.Length0 && 0 <= q < temp.Length1 ==>
              temp[p, q] == Stamp(old(temp[p, q]), p, q, c, radius)
  {
    var a := 0;
    while a < 2 * radius + 1
      invariant 0 <= a <= 2 * radius + 1
      invariant forall p, q :: 0 <= p < temp.Length0 && 0 <= q < temp.Length1 ==>
                  temp[p, q] == if p < c.ray + a then Stamp(old(temp[p, q]), p, q, c, radius) else old(temp[p, q])
    {
      var b := 0;
      while b < 2 * radius + 1
        invariant 0 <= b <= 2 * radius + 1
        invariant forall p, q :: 0 <= p < temp.Length0 && 0 <= q < temp.Length1 ==>
                    temp[p, q] == if p < c.ray + a || (p == c.ray + a && q < c.gate + b)
                                  then Stamp(old(temp[p, q]), p, q, c, radius) else old(temp[p, q])
      {
        var p, q := c.ray + a, c.gate + b;
        temp[p, q] := if temp[p, q] != 0 || circle[a, b] then 1 else 0;
        b := b + 1;
      }
      a := a + 1;
    }
  }

  /**
   * `_clutter_marker(is_clutters, shape, mask, radius)`: the marker of the
   * listed gates, cropped to `rows` by `cols`, with `mask` attached.
   */
  method ClutterMarker(isClutters: seq<Coord>, rows: nat, cols: nat, mask: seq<seq<bool>>, radius: nat)
    returns (r: MaskedGrid)
    requires Shaped(mask, rows, cols)
    requires forall k :: 0 <= k < |isClutters| ==> isClutters[k].ray < rows && isClutters[k].gate < cols
    ensures r.data == Dilate(isClutters, rows, cols, radius) && r.mask == mask
  {
    var temp := new int[rows + 2 * radius, cols + 2 * radius]((p, q) => PadValue(p, q, rows, cols, radius));
    var circle := new bool[2 * radius + 1, 2 * radius + 1]((a, b) => InDisk(a - radius, b - radius, radius));
    var k := 0;
    while k < |isClutters|
      invariant 0 <= k <= |isClutters|
      modifies temp
      invariant forall p, q :: 0 <= p < temp.Length0 && 0 <= q < temp.Length1 ==>
                  temp[p, q] == Painted(isClutters[..k], p, q, rows, cols, radius)
    {
      // Shifting by `radius` makes the window start at the gate's own index.
      StampWindow(temp, isClutters[k], radius, circle);
      assert isClutters[..k + 1][..k] == isClutters[..k];
      k := k + 1;
    }
    assert isClutters[..k] == isClutters;
    var data := seq(rows, i requires 0 <= i < rows reads temp =>
                  seq(cols, j requires 0 <= j < cols reads temp => temp[i + radius, j + radius]));
    forall i, j | 0 <= i < rows && 0 <= j < cols
      ensures data[i][j] == Dilate(isClutters, rows, cols, radius)[i][j]
    {
      PaintedInner(isClutters, i + radius, j + radius, rows, cols, radius);
    }
    GridExt(data, Dilate(isClutters, rows, cols, radius));
    r := MaskedGrid(data, mask);
  }
}
