/**
 * `_RunningStats`: Welford's running mean and variance, gate by gate, over
 * a sequence of reflectivity volumes. The five numpy arrays are five
 * two-dimensional arrays updated in place; `Grid()` reads them back as the
 * value `StatsGrid.Stats`, against which every method is specified.
 */
module RunningStatsClass {
  import opened Wrappers
  import opened Grids
  import opened StatsGrid

  class RunningStats {
    const rows: nat
    const cols: nat
    const n: array2<nat>
    const oldM: array2<real>
    const newM: array2<real>
    const oldS: array2<real>
    const newS: array2<real>

    /** False while `n` is the scalar 0 that the constructor and `clear` leave behind. */
    var counted: bool

    /** False until a push has returned: until then `old_m` is still the scalar 0. */
    var started: bool

    /** The five arrays all have the accumulator's shape and are distinct. */
    ghost predicate Shape()
    {
      rows > 0 && cols > 0 &&
      n.Length0 == rows && n.Length1 == cols &&
      oldM.Length0 == rows && oldM.Length1 == cols &&
      newM.Length0 == rows && newM.Length1 == cols &&
      oldS.Length0 == rows && oldS.Length1 == cols &&
      newS.Length0 == rows && newS.Length1 == cols &&
      oldM != newM && oldM != oldS && oldM != newS &&
      newM != oldS && newM != newS && oldS != newS
    }

    /** The shape holds, and while `n` is the scalar 0 no gate is counted. */
    ghost predicate Valid()
      reads this, n
    {
      Shape() &&
      (!counted ==> forall p, q :: 0 <= p < rows && 0 <= q < cols ==> n[p, q] == 0)
    }

    /** The five arrays' entries at gate `(i, j)`. */
    function At(i: int, j: int): Acc
      reads n, oldM, newM, oldS, newS
      requires Shape() && 0 <= i < rows && 0 <= j < cols
    {
      Acc(n[i, j], oldM[i, j], newM[i, j], oldS[i, j], newS[i, j])
    }

    /** The whole state, as a grid of accumulators. */
    function Grid(): (g: Stats)
      reads n, oldM, newM, oldS, newS
      requires Shape()
      ensures Shaped(g, rows, cols)
      ensures forall i, j :: 0 <= i < rows && 0 <= j < cols ==> g[i][j] == At(i, j)
    {
      seq(rows, i requires 0 <= i < rows && Shape() reads n, oldM, newM, oldS, newS =>
        seq(cols, j requires 0 <= j < cols && Shape() reads n, oldM, newM, oldS, newS => At(i, j)))
    }

    /** A new accumulator for `rows` by `cols` volumes: every array reads as zero. */
    constructor(rows: nat, cols: nat)
      requires rows > 0 && cols > 0
      ensures Valid() && fresh(n) && fresh(oldM) && fresh(newM) && fresh(oldS) && fresh(newS)
      ensures this.rows == rows && this.cols == cols
      ensures Grid() == Fresh(rows, cols) && !counted && !started
    {
      this.rows, this.cols := rows, cols;
      n := new nat[rows, cols]((i, j) => 0);
      oldM := new real[rows, cols]((i, j) => 0.0);
      newM := new real[rows, cols]((i, j) => 0.0);
      oldS := new real[rows, cols]((i, j) => 0.0);
      newS := new real[rows, cols]((i, j) => 0.0);
      counted, started := false, false;
      new;
      GridExt(Grid(), Fresh(rows, cols));
    }

    /** `clear`: the counts return to the scalar 0; means and sums are kept. */
    method Clear()
      requires Valid()
      modifies this, n
      ensures Valid()
      ensures Grid() == Cleared(old(Grid())) && !counted && started == old(started)
    {
      ghost var g0 := Grid();
      ZeroCounts();
      counted := false;
      GridExt(Grid(), Cleared(g0));
    }

    /** Sets every count to zero. */
    method ZeroCounts()
      requires Shape()
      modifies n
      ensures forall p, q :: 0 <= p < rows && 0 <= q < cols ==> n[p, q] == 0
    {
      var i := 0;
      while i < rows
        invariant 0 <= i <= rows
        invariant forall p, q :: 0 <= p < i && 0 <= q < cols ==> n[p, q] == 0
      {
        var j := 0;
        while j < cols
          invariant 0 <= j <= cols
          invariant forall p, q :: (0 <= p < i && 0 <= q < cols) || (p == i && 0 <= q < j) ==> n[p, q] == 0
        {
          n[i, j] := 0;
          j := j + 1;
        }
        i := i + 1;
      }
    }

    /** `n.max()`: the largest count over the grid. */
    method MaxCount() returns (mx: nat)
      requires Shape()
      ensures forall p, q :: 0 <= p < rows && 0 <= q < cols ==> n[p, q] <= mx
      ensures exists p, q :: 0 <= p < rows && 0 <= q < cols && n[p, q] == mx
      ensures mx == 1 <==> MaxIsOne(Grid())
    {
      mx := n[0, 0];
      var i := 0;
      while i < rows
        invariant 0 <= i <= rows
        invariant forall p, q :: 0 <= p < i && 0 <= q < cols ==> n[p, q] <= mx
        invariant exists p, q :: 0 <= p < rows && 0 <= q < cols && n[p, q] == mx
      {
        var j := 0;
        while j < cols
          invariant 0 <= j <= cols
          invariant forall p, q :: (0 <= p < i && 0 <= q < cols) || (p == i && 0 <= q < j) ==> n[p, q] <= mx
          invariant exists p, q :: 0 <= p < rows && 0 <= q < cols && n[p, q] == mx
        {
          if n[i, j] > mx {
            mx := n[i, j];
          }
          j := j + 1;
        }
        i := i + 1;
      }
      ghost var g: Stats := Grid();
      assert forall p, q :: 0 <= p < |g| && 0 <= q < |g[p]| ==> g[p][q].n <= mx;
      ghost var p, q :| 0 <= p < rows && 0 <= q < cols && n[p, q] == mx;
      assert g[p][q].n == mx;
    }

    /** `n += add_arr`: every present gate is counted once more. */
    method CountPresent(x: Frame)
      requires Shape() && Shaped(x, rows, cols)
      modifies n
      ensures Grid() == StatsGrid.AddCounts(old(Grid()), x)
    {
      ghost var g0 := Grid();
      var i := 0;
      while i < rows
        invariant 0 <= i <= rows
        invariant forall p, q :: 0 <= p < rows && 0 <= q < cols ==>
                    n[p, q] == old(n[p, q]) + if p < i then Present(x[p][q]) else 0
      {
        var j := 0;
        while j < cols
          invariant 0 <= j <= cols
          invariant forall p, q :: 0 <= p < rows && 0 <= q < cols ==>
                      n[p, q] == old(n[p, q]) + if p < i || (p == i && q < j) then Present(x[p][q]) else 0
        {
          if x[i][j].Some? {
            n[i, j] := n[i, j] + 1;
          }
          j := j + 1;
        }
        i := i + 1;
      }
      GridExt(Grid(), StatsGrid.AddCounts(g0, x));
    }

    /** The first-push branch: `old_m = new_m = filled(x, 0)`, `old_s = 0`; `new_s` is left alone. */
    method InitCells(x: Frame)
      requires Shape() && Shaped(x, rows, cols)
      modifies oldM, newM, oldS
      ensures Grid() == InitAll(old(Grid()), x)
    {
      ghost var g0 := Grid();
      var i := 0;
      while i < rows
        invariant 0 <= i <= rows
        invariant forall p, q :: 0 <= p < rows && 0 <= q < cols ==>
                    At(p, q) == if p < i then InitGate(old(At(p, q)), x[p][q]) else old(At(p, q))
      {
        var j := 0;
        while j < cols
          invariant 0 <= j <= cols
          invariant forall p, q :: 0 <= p < rows && 0 <= q < cols ==>
                      At(p, q) == if p < i || (p == i && q < j) then InitGate(old(At(p, q)), x[p][q]) else old(At(p, q))
        {
          var m := x[i][j].GetOr(0.0);
          oldM[i, j] := m;
          newM[i, j] := m;
          oldS[i, j] := 0.0;
          j := j + 1;
        }
        i := i + 1;
      }
      GridExt(Grid(), InitAll(g0, x));
    }

    /**
     * The update branch: at a present gate the mean moves by
     * `(x - old_m) / n` and the sum of squares grows by
     * `(x - old_m) * (x - new_m)`; a masked gate keeps both. Then `old_m`
     * and `old_s` take the new values.
     */
    method UpdateCells(x: Frame)
      requires Shape() && Shaped(x, rows, cols)
      requires forall p, q :: 0 <= p < rows && 0 <= q < cols && x[p][q].Some? ==> n[p, q] > 0
      modifies oldM, newM, oldS, newS
      ensures Grid() == UpdateAll(old(Grid()), x)
    {
      ghost var g0 := Grid();
      var i := 0;
      while i < rows
        invariant 0 <= i <= rows
        invariant forall p, q :: 0 <= p < rows && 0 <= q < cols ==>
                    At(p, q) == if p < i then UpdateGate(old(At(p, q)), x[p][q]) else old(At(p, q))
      {
        var j := 0;
        while j < cols
          invariant 0 <= j <= cols
          invariant forall p, q :: 0 <= p < rows && 0 <= q < cols ==>
                      At(p, q) == if p < i || (p == i && q < j) then UpdateGate(old(At(p, q)), x[p][q]) else old(At(p, q))
        {
          ghost var want := UpdateGate(At(i, j), x[i][j]);
          match x[i][j] {
            case None =>
              newM[i, j] := oldM[i, j];
              newS[i, j] := oldS[i, j];
            case Some(v) =>
              var fill := n[i, j] as real;
              var m := oldM[i, j] + (v - oldM[i, j]) / fill;
              var s := oldS[i, j] + (v - oldM[i, j]) * (v - m);
              newM[i, j] := m;
              newS[i, j] := s;
              oldM[i, j] := m;
              oldS[i, j] := s;
          }
          assert At(i, j) == want;
          j := j + 1;
        }
        i := i + 1;
      }
      GridExt(Grid(), UpdateAll(g0, x));
    }

    /**
     * The second half of `push`, once the counts are raised: the
     * first-push branch if the largest count is exactly 1, the update
     * branch otherwise.
     */
    method Advance(x: Frame, init: bool, ghost g0: Stats)
      requires Shape() && Shaped(x, rows, cols) && SameShape(g0, x)
      requires Grid() == StatsGrid.AddCounts(g0, x) && (init <==> MaxIsOne(Grid()))
      modifies oldM, newM, oldS, newS
      ensures Grid() == StatsGrid.Push(g0, x)
    {
      ghost var g1: Stats := Grid();
      if init {
        InitCells(x);
      } else {
        forall p, q | 0 <= p < rows && 0 <= q < cols && x[p][q].Some?
          ensures n[p, q] > 0
        {
          assert g1[p][q].n == g0[p][q].n + 1;
        }
        UpdateCells(x);
      }
      PushBranches(g0, g1, Grid(), x);
    }

    /**
     * `push`: count the present gates, then take the first-push branch if
     * the largest count is exactly 1 and the update branch otherwise. On an
     * accumulator never pushed to, the update branch raises (`ok` is false)
     * after the counts have been raised.
     */
    method Push(x: Frame) returns (ok: bool)
      requires Valid() && Shaped(x, rows, cols)
      modifies this, n, oldM, newM, oldS, newS
      ensures Valid()
      ensures ok == !DstackFails(old(started), old(Grid()), x)
      ensures ok ==> Grid() == StatsGrid.Push(old(Grid()), x)
      ensures !ok ==> Grid() == StatsGrid.AddCounts(old(Grid()), x)
      ensures counted && started == (old(started) || ok)
    {
      ghost var g0 := Grid();
      CountPresent(x);
      counted := true;
      var mx := MaxCount();
      if !started && mx != 1 && !(rows == 1 && cols == 1) {
        return false;
      }
      started, ok := true, true;
      Advance(x, mx == 1, g0);
    }

    /** `mean()`: the means once some gate is counted; zeros while `n` is the scalar 0. */
    function Mean(): (r: seq<seq<real>>)
      reads this, n, oldM, newM, oldS, newS
      requires Valid()
      ensures Shaped(r, rows, cols)
      ensures !counted ==> forall i, j :: 0 <= i < rows && 0 <= j < cols ==> r[i][j] == 0.0
    {
      StatsGrid.Mean(Grid())
    }

    /**
     * `variance()`: while `n` is the scalar 0, `n.max()` raises (a Python
     * `int` has no `max`); otherwise the grid variance.
     */
    function Variance(): (r: Result<seq<seq<Option<real>>>, string>)
      reads this, n, oldM, newM, oldS, newS
      requires Valid()
      ensures r.Failure? <==> !counted
      ensures r.Success? ==> Shaped(r.value, rows, cols)
    {
      if !counted then Failure("'int' object has no attribute 'max'")
      else Success(StatsGrid.Variance(Grid()))
    }
  }
}
