/** Two-dimensional grids (ray by gate) represented as sequences of rows. */
module Grids {

  /** A (ray, gate) index pair, as `np.argwhere` yields them. */
  datatype Coord = Coord(ray: nat, gate: nat)

  /** `g` is a rectangular grid of `rows` rays by `cols` gates. */
  ghost predicate Shaped<T>(g: seq<seq<T>>, rows: nat, cols: nat)
  {
    |g| == rows && forall i :: 0 <= i < rows ==> |g[i]| == cols
  }

  /** The two grids have the same number of rows, and matching rows have the same length. */
  ghost predicate SameShape<A, B>(g: seq<seq<A>>, h: seq<seq<B>>)
  {
    |g| == |h| && forall i :: 0 <= i < |g| ==> |g[i]| == |h[i]|
  }

  /** `(i, j)` is a cell of `g`. */
  predicate InGrid<T>(g: seq<seq<T>>, i: int, j: int)
  {
    0 <= i < |g| && 0 <= j < |g[i]|
  }

  /** Having the same shape is transitive. */
  lemma SameShapeTrans<A, B, C>(g: seq<seq<A>>, h: seq<seq<B>>, f: seq<seq<C>>)
    requires SameShape(g, h) && SameShape(h, f)
    ensures SameShape(g, f)
  {
  }

  /** Two grids of the same shape that agree at every cell are equal. */
  lemma GridExt<T>(g: seq<seq<T>>, h: seq<seq<T>>)
    requires SameShape(g, h)
    requires forall i, j :: 0 <= i < |g| && 0 <= j < |g[i]| ==> g[i][j] == h[i][j]
    ensures g == h
  {
    forall i | 0 <= i < |g|
      ensures g[i] == h[i]
    {
      assert forall j :: 0 <= j < |g[i]| ==> g[i][j] == h[i][j];
    }
  }
}
