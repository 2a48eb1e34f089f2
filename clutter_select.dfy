/**
 * The clutter selection in `tall_clutter`: `np.argwhere` over the gates
 * whose standard-deviation-to-mean ratio lies strictly between the two
 * thresholds. The ratio grid is an input; a gate whose ratio is masked or
 * not a number is `None` and is never selected.
 */
module ClutterSelect {
  import opened Wrappers
  import opened Grids

  /** The ratio grid, ray by gate; `None` marks a masked or invalid ratio. */
  type Ratios = seq<seq<Option<real>>>

  /** `clutter_thresh_min < v < clutter_thresh_max`, both bounds exclusive. */
  predicate IsClutter(v: Option<real>, lo: real, hi: real)
  {
    v.Some? && lo < v.value && v.value < hi
  }

  /** `c` comes strictly before `d` in row-major (C) order. */
  predicate Before(c: Coord, d: Coord)
  {
    c.ray < d.ray || (c.ray == d.ray && c.gate < d.gate)
  }

  /** The coordinates are listed in strictly increasing row-major order. */
  predicate RowMajor(cs: seq<Coord>)
  {
    forall a, b :: 0 <= a < b < |cs| ==> Before(cs[a], cs[b])
  }

  /** The selected gates among the first `k` gates of ray `i`, whose values are `row`. */
  function RowHits(row: seq<Option<real>>, i: nat, k: nat, lo: real, hi: real): (r: seq<Coord>)
    requires k <= |row|
    ensures |r| <= k
    ensures forall m :: 0 <= m < |r| ==> r[m].ray == i && r[m].gate < k && IsClutter(row[r[m].gate], lo, hi)
  {
    if k == 0 then []
    else RowHits(row, i, k - 1, lo, hi) + (if IsClutter(row[k - 1], lo, hi) then [Coord(i, k - 1)] else [])
  }

  /** `np.argwhere(logical_and(values > lo, values < hi))`, ray after ray. */
  function Select(values: Ratios, lo: real, hi: real): (r: seq<Coord>)
    ensures forall m :: 0 <= m < |r| ==>
              InGrid(values, r[m].ray, r[m].gate) && IsClutter(values[r[m].ray][r[m].gate], lo, hi)
  {
    if values == [] then []
    else
      var i := |values| - 1;
      Select(values[..i], lo, hi) + RowHits(values[i], i, |values[i]|, lo, hi)
  }

  /** A gate of ray `i` is listed iff it is among the first `k` and passes the thresholds. */
  lemma {:induction false} RowHitsMembers(row: seq<Option<real>>, i: nat, k: nat, lo: real, hi: real, c: Coord)
    requires k <= |row|
    ensures c in RowHits(row, i, k, lo, hi) <==> c.ray == i && c.gate < k && IsClutter(row[c.gate], lo, hi)
  {
    if k > 0 {
      RowHitsMembers(row, i, k - 1, lo, hi, c);
    }
  }

  /** The gates of one ray are listed in increasing order, all on that ray. */
  lemma {:induction false} RowHitsSorted(row: seq<Option<real>>, i: nat, k: nat, lo: real, hi: real)
    requires k <= |row|
    ensures RowMajor(RowHits(row, i, k, lo, hi))
    ensures forall c :: c in RowHits(row, i, k, lo, hi) ==> c.ray == i && c.gate < k
  {
    if k > 0 {
      RowHitsSorted(row, i, k - 1, lo, hi);
      var r := RowHits(row, i, k - 1, lo, hi);
      assert forall a :: 0 <= a < |r| ==> r[a] in r;
    }
  }

  /** Exactly the gates of the grid whose ratio passes both thresholds are selected. */
  lemma {:induction false} SelectMembers(values: Ratios, lo: real, hi: real, c: Coord)
    ensures c in Select(values, lo, hi) <==> InGrid(values, c.ray, c.gate) && IsClutter(values[c.ray][c.gate], lo, hi)
  {
    if values != [] {
      var i := |values| - 1;
      SelectMembers(values[..i], lo, hi, c);
      RowHitsMembers(values[i], i, |values[i]|, lo, hi, c);
    }
  }

  /** The selection is in strictly increasing row-major order, as `np.argwhere` lists it. */
  lemma {:induction false} SelectRowMajor(values: Ratios, lo: real, hi: real)
    ensures RowMajor(Select(values, lo, hi))
    ensures forall c :: c in Select(values, lo, hi) ==> c.ray < |values|
  {
    if values != [] {
      var i := |values| - 1;
      SelectRowMajor(values[..i], lo, hi);
      RowHitsSorted(values[i], i, |values[i]|, lo, hi);
      var s, t := Select(values[..i], lo, hi), RowHits(values[i], i, |values[i]|, lo, hi);
      assert forall a :: 0 <= a < |s| ==> s[a] in s;
      assert forall b :: 0 <= b < |t| ==> t[b] in t;
    }
  }

  /** Each selected gate is listed once. */
  lemma SelectNoDuplicates(values: Ratios, lo: real, hi: real)
    ensures forall a, b :: 0 <= a < b < |Select(values, lo, hi)| ==> Select(values, lo, hi)[a] != Select(values, lo, hi)[b]
  {
    SelectRowMajor(values, lo, hi);
  }

  /** Every selected coordinate lies inside a grid of the ratios' shape. */
  lemma SelectInGrid(values: Ratios, lo: real, hi: real, rows: nat, cols: nat)
    requires Shaped(values, rows, cols)
    ensures forall c :: c in Select(values, lo, hi) ==> c.ray < rows && c.gate < cols
  {
    forall c | c in Select(values, lo, hi)
      ensures c.ray < rows && c.gate < cols
    {
      SelectMembers(values, lo, hi, c);
    }
  }
}
