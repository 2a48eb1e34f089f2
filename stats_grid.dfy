/**
 * The running statistics of `_RunningStats` over a whole ray-by-gate grid,
 * as values: one accumulator per gate holding the five arrays' entries for
 * that gate. `Push` follows the two branches of the source's `push` as
 * written; `PushCorrected` is the per-gate update the branch was evidently
 * meant to be.
 */
module StatsGrid {
  import opened Wrappers
  import opened Grids
  import opened Welford

  /**
   * One gate's entries of the five arrays `n`, `old_m`, `new_m`, `old_s`
   * and `new_s`.
   */
  datatype Acc = Acc(n: nat, oldM: real, newM: real, oldS: real, newS: real)

  /** A reflectivity volume: `None` marks a masked (missing) gate. */
  type Frame = seq<seq<Option<real>>>

  /** The accumulator's state, gate by gate. */
  type Stats = seq<seq<Acc>>

  /** 1 at a gate whose value is present, 0 at a masked gate. */
  function Present(x: Option<real>): nat
  {
    if x.Some? then 1 else 0
  }

  /** The values a gate contributes to its history: its value, or nothing. */
  function Seen(x: Option<real>): seq<real>
  {
    match x
    case Some(v) => [v]
    case None => []
  }

  /** The state after construction: every array reads as zero. */
  function Fresh(rows: nat, cols: nat): (g: Stats)
    ensures Shaped(g, rows, cols)
    ensures forall i, j :: InGrid(g, i, j) ==> g[i][j] == Acc(0, 0.0, 0.0, 0.0, 0.0)
  {
    seq(rows, i => seq(cols, j => Acc(0, 0.0, 0.0, 0.0, 0.0)))
  }

  /** `clear`: the counts drop to zero, the means and sums are kept. */
  function Cleared(g: Stats): (r: Stats)
    ensures SameShape(r, g)
    ensures forall i, j :: InGrid(r, i, j) ==> r[i][j] == g[i][j].(n := 0)
  {
    seq(|g|, i requires 0 <= i < |g| => seq(|g[i]|, j requires 0 <= j < |g[i]| => g[i][j].(n := 0)))
  }

  /** The first step of `push`: every present gate's count goes up by one. */
  function AddCounts(g: Stats, x: Frame): (r: Stats)
    requires SameShape(g, x)
    ensures SameShape(r, x)
  {
    seq(|g|, i requires 0 <= i < |g| =>
      seq(|g[i]|, j requires 0 <= j < |g[i]| => g[i][j].(n := g[i][j].n + Present(x[i][j]))))
  }

  /**
   * At one gate, the first step of `push` adds 1 to the count where the
   * value is present, 0 where it is masked, and leaves the means and sums
   * as they were.
   */
  lemma AddCountsRaises(g: Stats, x: Frame, i: nat, j: nat)
    requires SameShape(g, x) && InGrid(g, i, j)
    ensures x[i][j].Some? ==> AddCounts(g, x)[i][j].n == g[i][j].n + 1
    ensures x[i][j].None? ==> AddCounts(g, x)[i][j].n == g[i][j].n
    ensures AddCounts(g, x)[i][j].(n := g[i][j].n) == g[i][j]
  {
  }

  /** `n.max() == 1`: no gate has been counted twice and some gate once. */
  predicate MaxIsOne(g: Stats)
  {
    (forall i, j :: 0 <= i < |g| && 0 <= j < |g[i]| ==> g[i][j].n <= 1) &&
    exists i, j :: 0 <= i < |g| && 0 <= j < |g[i]| && g[i][j].n == 1
  }

  /** `n.max() > 1`: some gate has been counted at least twice. */
  predicate Settled(g: Stats)
  {
    exists i, j :: 0 <= i < |g| && 0 <= j < |g[i]| && g[i][j].n > 1
  }

  /** `np.any(n)`: some gate has been counted. */
  predicate AnyCounted(g: Stats)
  {
    exists i, j :: 0 <= i < |g| && 0 <= j < |g[i]| && g[i][j].n > 0
  }

  /** The divisor `fill_n`: the (already raised) count at a present gate, 1 at a masked one. */
  function FillN(a: Acc, x: Option<real>): (d: real)
    requires x.Some? ==> a.n > 0
    ensures d >= 1.0
  {
    if x.Some? then a.n as real else 1.0
  }

  /**
   * The first-push branch at one gate (`a.n` already raised): the mean
   * becomes the value, or 0 at a masked gate, `old_s` becomes 0 and
   * `new_s` is left as it was.
   */
  function InitGate(a: Acc, x: Option<real>): (r: Acc)
    ensures r.n == a.n && r.newM == r.oldM && r.oldS == 0.0 && r.newS == a.newS
    ensures x.Some? ==> r.oldM == x.value
    ensures x.None? ==> r.oldM == 0.0
  {
    var m := x.GetOr(0.0);
    Acc(a.n, m, m, 0.0, a.newS)
  }

  /**
   * The update branch at one gate (`a.n` already raised): the mean moves by
   * `(x - old_m) / fill_n` and the sum of squares grows by
   * `(x - old_m) * (x - new_m)`; at a masked gate both terms are NaN and
   * `nansum` drops them. Afterwards `old_m`/`old_s` equal `new_m`/`new_s`.
   */
  function UpdateGate(a: Acc, x: Option<real>): (r: Acc)
    requires x.Some? ==> a.n > 0
    ensures r.n == a.n && r.newM == r.oldM && r.newS == r.oldS
    ensures x.None? ==> r.oldM == a.oldM && r.oldS == a.oldS
    ensures x.Some? && a.n == 1 ==> r.oldM == x.value && r.oldS == a.oldS
  {
    match x
    case None => Acc(a.n, a.oldM, a.oldM, a.oldS, a.oldS)
    case Some(v) =>
      var d := FillN(a, x);
      FirstValueStep(a.oldM, a.oldS, v, d);
      var m' := a.oldM + (v - a.oldM) / d;
      var s' := a.oldS + (v - a.oldM) * (v - m');
      Acc(a.n, m', m', s', s')
  }

  /** Welford's step with divisor 1 moves the mean onto the value and leaves the sum of squares. */
  lemma FirstValueStep(m: real, s: real, v: real, d: real)
    ensures d == 1.0 ==> m + (v - m) / d == v
    ensures d == 1.0 ==> s + (v - m) * (v - (m + (v - m) / d)) == s
  {
  }

  /** The first-push branch over the grid. */
  function InitAll(g: Stats, x: Frame): (r: Stats)
    requires SameShape(g, x)
    ensures SameShape(r, x)
  {
    seq(|g|, i requires 0 <= i < |g| =>
      seq(|g[i]|, j requires 0 <= j < |g[i]| => InitGate(g[i][j], x[i][j])))
  }

  /** The update branch over the grid. */
  function UpdateAll(g: Stats, x: Frame): (r: Stats)
    requires SameShape(g, x)
    requires forall i, j :: 0 <= i < |g| && 0 <= j < |g[i]| && x[i][j].Some? ==> g[i][j].n > 0
    ensures SameShape(r, x)
  {
    seq(|g|, i requires 0 <= i < |g| =>
      seq(|g[i]|, j requires 0 <= j < |g[i]| => UpdateGate(g[i][j], x[i][j])))
  }

  /**
   * `push` as written: raise the counts, then take the first-push branch
   * when the largest count is exactly 1, the update branch otherwise.
   * Every present gate is counted once more, every masked gate keeps its
   * count, and `old_m` and `new_m` agree afterwards.
   */
  function Push(g: Stats, x: Frame): (r: Stats)
    requires SameShape(g, x)
    ensures SameShape(r, x)
    ensures forall i, j :: InGrid(r, i, j) ==>
              r[i][j].n == g[i][j].n + Present(x[i][j]) && r[i][j].newM == r[i][j].oldM
  {
    var c := AddCounts(g, x);
    if MaxIsOne(c) then InitAll(c, x) else UpdateAll(c, x)
  }

  /**
   * The two branches of `push`, by the largest raised count: a grid `r`
   * reached from the raised counts `c` by the branch that `c` selects is
   * the pushed grid.
   */
  lemma PushBranches(g: Stats, c: Stats, r: Stats, x: Frame)
    requires SameShape(g, x) && c == AddCounts(g, x)
    requires MaxIsOne(c) ==> r == InitAll(c, x)
    requires !MaxIsOne(c) ==> r == UpdateAll(c, x)
    ensures r == Push(g, x)
  {
  }

  /**
   * On a grid never pushed to, the update branch broadcasts the scalar
   * zeros against the frame, which numpy's `dstack` refuses unless the grid
   * is a single gate: the push raises instead of returning.
   */
  function DstackFails(started: bool, g: Stats, x: Frame): (b: bool)
    requires SameShape(g, x)
    ensures started ==> !b
    ensures NoneCounted(g) ==> (b <==> !started && !SomePresent(x) && !(|g| == 1 && |g[0]| == 1))
  {
    UncountedMaxIsOne(g, x);
    !started && !MaxIsOne(AddCounts(g, x)) && !(|g| == 1 && |g[0]| == 1)
  }

  /** `mean()`: the means once some gate has been counted, otherwise zeros. */
  function Mean(g: Stats): (r: seq<seq<real>>)
    ensures SameShape(r, g)
    ensures !AnyCounted(g) ==> forall i, j :: InGrid(r, i, j) ==> r[i][j] == 0.0
  {
    if AnyCounted(g) then
      seq(|g|, i requires 0 <= i < |g| => seq(|g[i]|, j requires 0 <= j < |g[i]| => g[i][j].newM))
    else
      seq(|g|, i requires 0 <= i < |g| => seq(|g[i]|, j requires 0 <= j < |g[i]| => 0.0))
  }

  /** One gate's `new_s / (n - 1)`: nothing where it divides by zero. */
  function GateVariance(a: Acc): (r: Option<real>)
    ensures r.None? <==> a.n == 1
  {
    if a.n == 1 then None else Some(a.newS / ((a.n - 1) as real))
  }

  /**
   * `variance()` on a counted grid: `new_s / (n - 1)` once some gate has
   * been counted twice, where a gate counted once divides by zero (`None`)
   * and a gate never counted divides by -1; zeros otherwise.
   */
  function Variance(g: Stats): (r: seq<seq<Option<real>>>)
    ensures SameShape(r, g)
    ensures !Settled(g) ==> forall i, j :: InGrid(r, i, j) ==> r[i][j] == Some(0.0)
  {
    if Settled(g) then
      seq(|g|, i requires 0 <= i < |g| => seq(|g[i]|, j requires 0 <= j < |g[i]| => GateVariance(g[i][j])))
    else
      seq(|g|, i requires 0 <= i < |g| => seq(|g[i]|, j requires 0 <= j < |g[i]| => Some(0.0)))
  }

  // ----- What the state is meant to hold -----

  /** Every frame covers gate `(i, j)`. */
  ghost predicate Covers(frames: seq<Frame>, i: int, j: int)
  {
    forall k :: 0 <= k < |frames| ==> InGrid(frames[k], i, j)
  }

  /** The present values gate `(i, j)` has received, in arrival order. */
  function History(frames: seq<Frame>, i: int, j: int): seq<real>
    requires Covers(frames, i, j)
  {
    if frames == [] then []
    else
      var last := frames[|frames| - 1];
      assert InGrid(last, i, j);
      History(frames[..|frames| - 1], i, j) + Seen(last[i][j])
  }

  /** One gate holds the Welford state of its history, with `new_m` equal to `old_m`. */
  ghost predicate GateTracks(a: Acc, h: seq<real>)
  {
    Tracks(a.n, a.oldM, a.oldS, h) && a.newM == a.oldM
  }

  /**
   * The state describes the frames pushed so far: every gate tracks its
   * history, and once some gate has been counted twice `new_s` equals
   * `old_s` everywhere.
   */
  ghost predicate TracksAll(g: Stats, frames: seq<Frame>)
  {
    (forall k :: 0 <= k < |frames| ==> SameShape(g, frames[k])) &&
    (forall i, j :: InGrid(g, i, j) ==> Covers(frames, i, j) && GateTracks(g[i][j], History(frames, i, j))) &&
    (Settled(g) ==> forall i, j :: InGrid(g, i, j) ==> g[i][j].newS == g[i][j].oldS)
  }

  /** No gate has been counted (a new or cleared accumulator). */
  predicate NoneCounted(g: Stats)
  {
    forall i, j :: 0 <= i < |g| && 0 <= j < |g[i]| ==> g[i][j].n == 0
  }

  /** Some gate of the frame is present. */
  predicate SomePresent(x: Frame)
  {
    exists i, j :: 0 <= i < |x| && 0 <= j < |x[i]| && x[i][j].Some?
  }

  /** With no gate counted, the raised counts top out at exactly 1 iff some gate of the frame is present. */
  lemma UncountedMaxIsOne(g: Stats, x: Frame)
    requires SameShape(g, x)
    ensures NoneCounted(g) ==> (MaxIsOne(AddCounts(g, x)) <==> SomePresent(x))
  {
    if NoneCounted(g) {
      var c: Stats := AddCounts(g, x);
      if SomePresent(x) {
        var i, j :| 0 <= i < |x| && 0 <= j < |x[i]| && x[i][j].Some?;
        assert c[i][j].n == 1;
      }
      if MaxIsOne(c) {
        var i, j :| 0 <= i < |c| && 0 <= j < |c[i]| && c[i][j].n == 1;
        assert x[i][j].Some?;
      }
    }
  }

  // ----- Lemmas: what a push does to the tracked state -----

  /** A new frame adds the gate's value, if present, to the end of its history. */
  lemma HistorySnoc(frames: seq<Frame>, x: Frame, i: int, j: int)
    requires Covers(frames, i, j) && InGrid(x, i, j)
    ensures Covers(frames + [x], i, j)
    ensures History(frames + [x], i, j) == History(frames, i, j) + Seen(x[i][j])
  {
    assert (frames + [x])[..|frames|] == frames;
  }

  /** The update branch at one gate is Welford's step on that gate's history. */
  lemma GateUpdateTracks(a: Acc, h: seq<real>, x: Option<real>)
    requires GateTracks(a, h)
    ensures var b := UpdateGate(a.(n := a.n + Present(x)), x);
            GateTracks(b, h + Seen(x)) && b.newS == b.oldS
  {
    match x
    case None =>
      assert h + [] == h;
    case Some(v) =>
      var b := UpdateGate(a.(n := a.n + 1), x);
      WelfordStep(a.n, a.oldM, a.oldS, h, v, b.oldM, b.oldS);
  }

  /** The first-push branch at a gate never counted starts its history afresh. */
  lemma GateInitTracks(a: Acc, x: Option<real>)
    requires a.n == 0
    ensures GateTracks(InitGate(a.(n := Present(x)), x), Seen(x))
  {
    match x
    case None =>
    case Some(v) =>
      Single(v);
  }

  /**
   * A push keeps the state describing the frames, unless it takes the
   * first-push branch while some gate has already been counted: then the
   * branch overwrites that gate (see `InitBranchLosesMean`).
   */
  lemma PushTracks(g: Stats, frames: seq<Frame>, x: Frame)
    requires TracksAll(g, frames) && SameShape(g, x)
    requires !MaxIsOne(AddCounts(g, x)) || NoneCounted(g)
    ensures TracksAll(Push(g, x), frames + [x])
  {
    var c: Stats, r: Stats, fs: seq<Frame> := AddCounts(g, x), Push(g, x), frames + [x];
    forall k | 0 <= k < |fs|
      ensures SameShape(r, fs[k])
    {
      if k < |frames| {
        assert fs[k] == frames[k];
      }
    }
    forall i, j | InGrid(r, i, j)
      ensures Covers(fs, i, j) && GateTracks(r[i][j], History(fs, i, j))
    {
      PushGateTracks(g, frames, x, i, j);
    }
    PushSyncsSums(g, x);
  }

  /**
   * A push that leaves some gate counted twice took the update branch, which
   * makes `new_s` equal `old_s` at every gate.
   */
  lemma PushSyncsSums(g: Stats, x: Frame)
    requires SameShape(g, x)
    ensures var r := Push(g, x);
            Settled(r) ==> forall i, j :: InGrid(r, i, j) ==> r[i][j].newS == r[i][j].oldS
  {
    var c: Stats := AddCounts(g, x);
    if MaxIsOne(c) {
      var r: Stats := InitAll(c, x);
      assert forall i, j :: 0 <= i < |r| && 0 <= j < |r[i]| ==> r[i][j].n <= 1;
    }
  }

  /** `PushTracks` at one gate. */
  lemma PushGateTracks(g: Stats, frames: seq<Frame>, x: Frame, i: int, j: int)
    requires TracksAll(g, frames) && SameShape(g, x) && InGrid(g, i, j)
    requires !MaxIsOne(AddCounts(g, x)) || NoneCounted(g)
    ensures Covers(frames + [x], i, j) && GateTracks(Push(g, x)[i][j], History(frames + [x], i, j))
  {
    HistorySnoc(frames, x, i, j);
    var h := History(frames, i, j);
    assert GateTracks(g[i][j], h);
    if MaxIsOne(AddCounts(g, x)) {
      assert g[i][j].n == 0;
      assert h == [];
      GateInitTracks(g[i][j], x[i][j]);
    } else {
      GateUpdateTracks(g[i][j], h, x[i][j]);
    }
  }

  /** From a state with no gate counted, a frame with a present gate is taken as the first push. */
  lemma FirstPushTracks(g: Stats, x: Frame)
    requires NoneCounted(g) && SameShape(g, x) && SomePresent(x)
    ensures MaxIsOne(AddCounts(g, x))
    ensures TracksAll(Push(g, x), [x])
  {
    FirstPushInits(g, x);
    InitAllTracks(g, x);
  }

  /** With no gate counted, a frame with a present gate raises the largest count to exactly 1. */
  lemma FirstPushInits(g: Stats, x: Frame)
    requires NoneCounted(g) && SameShape(g, x) && SomePresent(x)
    ensures MaxIsOne(AddCounts(g, x))
  {
    var c: Stats := AddCounts(g, x);
    var i0, j0 :| 0 <= i0 < |x| && 0 <= j0 < |x[i0]| && x[i0][j0].Some?;
    assert c[i0][j0].n == 1;
    assert forall i, j :: 0 <= i < |c| && 0 <= j < |c[i]| ==> c[i][j].n <= 1;
  }

  /** With no gate counted, the first-push branch leaves each gate tracking the one frame. */
  lemma InitAllTracks(g: Stats, x: Frame)
    requires NoneCounted(g) && SameShape(g, x)
    ensures TracksAll(InitAll(AddCounts(g, x), x), [x])
  {
    var r: Stats := InitAll(AddCounts(g, x), x);
    forall i, j | InGrid(r, i, j)
      ensures Covers([x], i, j) && GateTracks(r[i][j], History([x], i, j))
    {
      HistorySnoc([], x, i, j);
      assert [] + [x] == [x];
      GateInitTracks(g[i][j], x[i][j]);
    }
    assert forall i, j :: 0 <= i < |r| && 0 <= j < |r[i]| ==> r[i][j].n <= 1;
  }

  /** Once some gate has been counted twice, every later push takes the update branch. */
  lemma SettledPush(g: Stats, x: Frame)
    requires Settled(g) && SameShape(g, x)
    ensures !MaxIsOne(AddCounts(g, x)) && Settled(Push(g, x))
  {
    var i, j :| 0 <= i < |g| && 0 <= j < |g[i]| && g[i][j].n > 1;
    assert AddCounts(g, x)[i][j].n > 1;
    assert Push(g, x)[i][j].n > 1;
  }

  /** `push` applied to each frame in turn. */
  function PushAll(g: Stats, frames: seq<Frame>): (r: Stats)
    requires forall k :: 0 <= k < |frames| ==> SameShape(g, frames[k])
    ensures SameShape(r, g)
    decreases |frames|
  {
    if frames == [] then g
    else
      var p := PushAll(g, frames[..|frames| - 1]);
      SameShapeTrans(p, g, frames[|frames| - 1]);
      Push(p, frames[|frames| - 1])
  }

  /** After a gate has been counted twice, any further frames keep the state describing all frames. */
  lemma {:induction false} SettledPushAll(g: Stats, done: seq<Frame>, rest: seq<Frame>)
    requires TracksAll(g, done) && Settled(g)
    requires forall k :: 0 <= k < |rest| ==> SameShape(g, rest[k])
    ensures TracksAll(PushAll(g, rest), done + rest) && Settled(PushAll(g, rest))
    decreases |rest|
  {
    if rest == [] {
      assert done + rest == done;
    } else {
      var front, x := rest[..|rest| - 1], rest[|rest| - 1];
      assert forall k :: 0 <= k < |front| ==> front[k] == rest[k];
      SettledPushAll(g, done, front);
      var p := PushAll(g, front);
      SameShapeTrans(p, g, x);
      assert PushAll(g, rest) == Push(p, x);
      SettledPush(p, x);
      PushTracks(p, done + front, x);
      SnocSplit(done, rest);
    }
  }

  /** Appending the front of `rest` and then its last element appends `rest`. */
  lemma SnocSplit<T>(done: seq<T>, rest: seq<T>)
    requires rest != []
    ensures done + rest[..|rest| - 1] + [rest[|rest| - 1]] == done + rest
  {
    assert rest == rest[..|rest| - 1] + [rest[|rest| - 1]];
  }

  // ----- Lemmas: what mean() and variance() report -----

  /** `mean()` gives each gate the average of its history, and 0 at a gate with no history. */
  lemma MeanIsAverage(g: Stats, frames: seq<Frame>, i: int, j: int)
    requires TracksAll(g, frames) && InGrid(g, i, j)
    ensures var h := History(frames, i, j);
            Mean(g)[i][j] == if h == [] then 0.0 else Average(h)
  {
    if !AnyCounted(g) {
      assert g[i][j].n == 0;
    }
  }

  /**
   * Once some gate has been counted twice, `variance()` gives each gate the
   * sample variance of its history, nothing at a gate counted once (a
   * division by zero), and 0 at a gate never counted.
   */
  lemma VarianceIsSample(g: Stats, frames: seq<Frame>, i: int, j: int)
    requires TracksAll(g, frames) && InGrid(g, i, j) && Settled(g)
    ensures var h := History(frames, i, j);
            Variance(g)[i][j] == if |h| == 1 then None
                                 else if h == [] then Some(0.0)
                                 else Some(SampleVariance(h))
  {
    var h, a := History(frames, i, j), g[i][j];
    assert GateTracks(a, h) && a.newS == a.oldS;
    assert Variance(g)[i][j] == GateVariance(a);
    GateVarianceIsSample(a, h);
  }

  /** One gate's `new_s / (n - 1)` is the sample variance of the history it tracks. */
  lemma GateVarianceIsSample(a: Acc, h: seq<real>)
    requires GateTracks(a, h) && a.newS == a.oldS
    ensures GateVariance(a) == if |h| == 1 then None
                               else if h == [] then Some(0.0)
                               else Some(SampleVariance(h))
  {
    if |h| >= 2 {
      var s, k := SqDev(h, Average(h)), (|h| - 1) as real;
      assert a.newS == s && (a.n - 1) as real == k;
      assert SampleVariance(h) == s / k;
    }
  }

  // ----- The first-push branch, as written and as evidently intended -----

  /**
   * As written, the first-push branch is taken whenever the largest count is
   * 1, not only on the very first frame: a gate counted once by an earlier
   * frame and masked in this one gets its mean reset to 0 while keeping its
   * count. On a grid of one ray and two gates, pushing `[5, masked]` and then
   * `[masked, 7]` leaves gate 0 counted once with mean 0 instead of 5.
   */
  lemma InitBranchLosesMean()
    ensures PushAll(Fresh(1, 2), ExampleFrames()) == AfterB()
    ensures History(ExampleFrames(), 0, 0) == [5.0] && AfterB()[0][0].n == 1
    ensures Mean(AfterB())[0][0] == 0.0
    ensures !TracksAll(AfterB(), ExampleFrames())
  {
    ExamplePushAll();
    ExampleHistory();
    ExampleMean();
    Single(5.0);
    if TracksAll(AfterB(), ExampleFrames()) {
      MeanIsAverage(AfterB(), ExampleFrames(), 0, 0);
      assert false;
    }
  }

  /** The example's frames, in push order. */
  function ExampleFrames(): seq<Frame> { [FrameA(), FrameB()] }

  /** Pushing the example's frames onto a new 1-by-2 accumulator gives `AfterB`. */
  lemma ExamplePushAll()
    ensures PushAll(Fresh(1, 2), ExampleFrames()) == AfterB()
  {
    var fs := ExampleFrames();
    assert fs[..1] == [FrameA()] && [FrameA()][..0] == [];
    PushA();
    PushB();
  }

  /** Gate 0 of the example has received the single value 5. */
  lemma ExampleHistory()
    ensures History(ExampleFrames(), 0, 0) == [5.0]
  {
    var fs := ExampleFrames();
    assert fs[..1] == [FrameA()] && [FrameA()][..0] == [];
  }

  /** `mean()` of the example's final state reports 0 at gate 0. */
  lemma ExampleMean()
    ensures Mean(AfterB())[0][0] == 0.0
  {
    assert AfterB()[0][0].n == 1;
  }

  /** The first frame of the example: gate 0 present, gate 1 masked. */
  function FrameA(): Frame { [[Some(5.0), None]] }

  /** The second frame of the example: gate 0 masked, gate 1 present. */
  function FrameB(): Frame { [[None, Some(7.0)]] }

  /** The state after `FrameA` (first-push branch). */
  function AfterA(): Stats { [[Acc(1, 5.0, 5.0, 0.0, 0.0), Acc(0, 0.0, 0.0, 0.0, 0.0)]] }

  /** The state after `FrameB` (first-push branch again). */
  function AfterB(): Stats { [[Acc(1, 0.0, 0.0, 0.0, 0.0), Acc(1, 7.0, 7.0, 0.0, 0.0)]] }

  /** Pushing `FrameA` onto a new 1-by-2 accumulator. */
  lemma PushA()
    ensures Push(Fresh(1, 2), FrameA()) == AfterA()
  {
    var c: Stats := AddCounts(Fresh(1, 2), FrameA());
    assert c[0][0].n == 1 && c[0][1].n == 0;
    assert MaxIsOne(c);
    var r: Stats := Push(Fresh(1, 2), FrameA());
    assert r[0] == AfterA()[0];
  }

  /** Pushing `FrameB` after `FrameA`: the largest count is still 1. */
  lemma PushB()
    ensures Push(AfterA(), FrameB()) == AfterB()
  {
    var c: Stats := AddCounts(AfterA(), FrameB());
    assert c[0][0].n == 1 && c[0][1].n == 1;
    assert MaxIsOne(c);
    var r: Stats := Push(AfterA(), FrameB());
    assert r[0] == AfterB()[0];
  }

  /**
   * The intended per-gate update: a gate never counted holds zeros, a gate
   * receiving its first value takes it as its mean with a zero sum of
   * squares, and every other gate takes the Welford update.
   */
  function CorrectGate(a: Acc, x: Option<real>): Acc
    requires x.Some? ==> a.n > 0
  {
    if a.n == 0 then Acc(0, 0.0, 0.0, 0.0, 0.0)
    else match x
      case Some(v) => if a.n == 1 then Acc(1, v, v, 0.0, 0.0) else UpdateGate(a, x)
      case None => UpdateGate(a, x)
  }

  /**
   * `push` with the first-push branch applied per gate. Every present gate
   * is counted once more, and afterwards `old_m`/`old_s` equal
   * `new_m`/`new_s` at every gate.
   */
  function PushCorrected(g: Stats, x: Frame): (r: Stats)
    requires SameShape(g, x)
    ensures SameShape(r, x)
    ensures forall i, j :: InGrid(r, i, j) ==>
              r[i][j].n == g[i][j].n + Present(x[i][j]) &&
              r[i][j].newM == r[i][j].oldM && r[i][j].newS == r[i][j].oldS
  {
    var c := AddCounts(g, x);
    seq(|c|, i requires 0 <= i < |c| =>
      seq(|c[i]|, j requires 0 <= j < |c[i]| => CorrectGate(c[i][j], x[i][j])))
  }

  /** The intended update at a gate that has been counted before continues its history. */
  lemma GateCorrectTracks(a: Acc, h: seq<real>, x: Option<real>)
    requires GateTracks(a, h)
    ensures GateTracks(CorrectGate(a.(n := a.n + Present(x)), x), h + Seen(x))
  {
    var c := a.(n := a.n + Present(x));
    if c.n == 0 {
      assert h + Seen(x) == h;
    } else if x.Some? && c.n == 1 {
      assert h == [];
      Single(x.value);
    } else {
      GateUpdateTracks(a, h, x);
    }
  }

  /** The intended update at a gate never counted starts its history afresh, whatever it held. */
  lemma GateCorrectStarts(a: Acc, x: Option<real>)
    requires a.n == 0
    ensures GateTracks(CorrectGate(a.(n := Present(x)), x), Seen(x))
  {
    if x.Some? {
      Single(x.value);
    }
  }

  /** The intended push keeps the state describing the frames, from any tracking state. */
  lemma PushCorrectedTracks(g: Stats, frames: seq<Frame>, x: Frame)
    requires TracksAll(g, frames) && SameShape(g, x)
    ensures TracksAll(PushCorrected(g, x), frames + [x])
  {
    var r: Stats, fs: seq<Frame> := PushCorrected(g, x), frames + [x];
    forall k | 0 <= k < |fs|
      ensures SameShape(r, fs[k])
    {
      if k < |frames| {
        assert fs[k] == frames[k];
      }
    }
    forall i, j | InGrid(r, i, j)
      ensures Covers(fs, i, j) && GateTracks(r[i][j], History(fs, i, j))
    {
      HistorySnoc(frames, x, i, j);
      GateCorrectTracks(g[i][j], History(frames, i, j), x[i][j]);
    }
  }

  /**
   * From a new or cleared state (no gate counted, whatever the means and
   * sums hold), the intended push describes exactly the one frame.
   */
  lemma PushCorrectedStarts(g: Stats, x: Frame)
    requires NoneCounted(g) && SameShape(g, x)
    ensures TracksAll(PushCorrected(g, x), [x])
  {
    var r: Stats := PushCorrected(g, x);
    forall i, j | InGrid(r, i, j)
      ensures Covers([x], i, j) && GateTracks(r[i][j], History([x], i, j))
    {
      HistorySnoc([], x, i, j);
      assert [] + [x] == [x];
      GateCorrectStarts(g[i][j], x[i][j]);
    }
  }

  /** The intended `push` applied to each frame in turn. */
  function PushAllCorrected(g: Stats, frames: seq<Frame>): (r: Stats)
    requires forall k :: 0 <= k < |frames| ==> SameShape(g, frames[k])
    ensures SameShape(r, g)
    decreases |frames|
  {
    if frames == [] then g
    else
      var p := PushAllCorrected(g, frames[..|frames| - 1]);
      SameShapeTrans(p, g, frames[|frames| - 1]);
      PushCorrected(p, frames[|frames| - 1])
  }

  /**
   * From a new accumulator, the intended pushes describe every frame, and
   * `new_s` equals `old_s` at every gate.
   */
  lemma {:induction false} PushAllCorrectedTracks(rows: nat, cols: nat, frames: seq<Frame>)
    requires forall k :: 0 <= k < |frames| ==> SameShape(Fresh(rows, cols), frames[k])
    ensures var r := PushAllCorrected(Fresh(rows, cols), frames);
            TracksAll(r, frames) && forall i, j :: InGrid(r, i, j) ==> r[i][j].newS == r[i][j].oldS
    decreases |frames|
  {
    var g := Fresh(rows, cols);
    if frames != [] {
      var front, x := frames[..|frames| - 1], frames[|frames| - 1];
      assert forall k :: 0 <= k < |front| ==> front[k] == frames[k];
      PushAllCorrectedTracks(rows, cols, front);
      var p := PushAllCorrected(g, front);
      SameShapeTrans(p, g, x);
      PushCorrectedTracks(p, front, x);
      assert front + [x] == frames;
    }
  }

  /**
   * Two states of the same shape that describe the same frames, with
   * `new_s` equal to `old_s` at every gate, are the same state.
   */
  lemma TracksDetermine(g1: Stats, g2: Stats, frames: seq<Frame>)
    requires SameShape(g1, g2) && TracksAll(g1, frames) && TracksAll(g2, frames)
    requires forall i, j :: InGrid(g1, i, j) ==> g1[i][j].newS == g1[i][j].oldS
    requires forall i, j :: InGrid(g2, i, j) ==> g2[i][j].newS == g2[i][j].oldS
    ensures g1 == g2
  {
    forall i, j | 0 <= i < |g1| && 0 <= j < |g1[i]|
      ensures g1[i][j] == g2[i][j]
    {
      assert InGrid(g2, i, j);
      var h := History(frames, i, j);
      assert GateTracks(g1[i][j], h) && GateTracks(g2[i][j], h);
    }
    GridExt(g1, g2);
  }

  /**
   * A state of a new accumulator's shape that describes the frames and has
   * had some gate counted twice is the corrected accumulator's state over
   * the same frames.
   */
  lemma SettledIsCorrected(g: Stats, rows: nat, cols: nat, frames: seq<Frame>)
    requires forall k :: 0 <= k < |frames| ==> SameShape(Fresh(rows, cols), frames[k])
    requires Shaped(g, rows, cols) && TracksAll(g, frames) && Settled(g)
    ensures g == PushAllCorrected(Fresh(rows, cols), frames)
  {
    PushAllCorrectedTracks(rows, cols, frames);
    SettledAgrees(g, PushAllCorrected(Fresh(rows, cols), frames), rows, cols, frames);
  }

  /** A settled tracking state agrees with any synced tracking state of its shape over the same frames. */
  lemma SettledAgrees(g: Stats, c: Stats, rows: nat, cols: nat, frames: seq<Frame>)
    requires Shaped(g, rows, cols) && TracksAll(g, frames) && Settled(g)
    requires SameShape(c, Fresh(rows, cols)) && TracksAll(c, frames)
    requires forall i, j :: InGrid(c, i, j) ==> c[i][j].newS == c[i][j].oldS
    ensures g == c
  {
    TracksDetermine(g, c, frames);
  }
}
