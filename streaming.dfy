/**
 * The running-statistics loop of `tall_clutter`: each radar file is read in
 * turn; an unreadable one is skipped. The first readable volume fixes the
 * shape and is pushed, and then (its shape trivially matching) pushed
 * again; every later volume is pushed only if its shape matches the first.
 */
module Streaming {
  import opened Wrappers
  import opened Grids
  import opened StatsGrid
  import opened RunningStatsClass

  /** A reflectivity volume read from one file: its shape and its masked data. */
  datatype Volume = Volume(rows: nat, cols: nat, data: Frame)

  /** The volume's data has its stated, non-empty shape. */
  ghost predicate WellFormed(v: Volume)
  {
    v.rows > 0 && v.cols > 0 && Shaped(v.data, v.rows, v.cols)
  }

  /** Every file that can be read yields a well-formed volume; `None` is a corrupt file. */
  ghost predicate Readable(files: seq<Option<Volume>>)
  {
    forall k :: 0 <= k < |files| && files[k].Some? ==> WellFormed(files[k].value)
  }

  /** The error `np.dstack` raises when the first push takes the update branch. */
  const DstackError: string := "ValueError: all the input array dimensions except for the concatenation axis must match exactly"

  /** The first readable volume, whose shape becomes `first_shape`. */
  function FirstVolume(files: seq<Option<Volume>>): (r: Option<Volume>)
    ensures r.None? <==> forall k :: 0 <= k < |files| ==> files[k].None?
    ensures r.Some? ==> r in files
  {
    if files == [] then None
    else
      var f := FirstVolume(files[..|files| - 1]);
      if f.Some? then f else files[|files| - 1]
  }

  /**
   * The frames one file adds, given the first volume read before it: the
   * first readable volume twice, a later one of the same shape once.
   */
  function Step(first: Option<Volume>, file: Option<Volume>): (r: seq<Frame>)
    ensures forall k :: 0 <= k < |r| ==> file.Some? && r[k] == file.value.data
    ensures file.Some? && first.None? ==> |r| == 2
    ensures file.Some? && first.Some? ==>
              (|r| == 1 <==> file.value.rows == first.value.rows && file.value.cols == first.value.cols)
    ensures |r| <= 2
  {
    match file
    case None => []
    case Some(v) =>
      match first
      case None => [v.data, v.data]
      case Some(f) => if v.rows == f.rows && v.cols == f.cols then [v.data] else []
  }

  /** The frames pushed, in order, after all of `files`. */
  function Pushed(files: seq<Option<Volume>>): (r: seq<Frame>)
    ensures FirstVolume(files).None? ==> r == []
    ensures FirstVolume(files).Some? ==> |r| >= 2 && r[0] == FirstVolume(files).value.data && r[1] == r[0]
  {
    if files == [] then []
    else
      var init := files[..|files| - 1];
      Pushed(init) + Step(FirstVolume(init), files[|files| - 1])
  }

  /** Reference definition: the data of every readable volume of shape `rows` by `cols`, in file order. */
  function Matching(files: seq<Option<Volume>>, rows: nat, cols: nat): seq<Frame>
  {
    if files == [] then []
    else
      var last := files[|files| - 1];
      Matching(files[..|files| - 1], rows, cols) +
        (if last.Some? && last.value.rows == rows && last.value.cols == cols then [last.value.data] else [])
  }

  /** Until a volume has been read, no file is readable and nothing has been pushed. */
  lemma {:induction false} BeforeFirst(files: seq<Option<Volume>>, rows: nat, cols: nat)
    requires FirstVolume(files).None?
    ensures forall k :: 0 <= k < |files| ==> files[k].None?
    ensures Pushed(files) == [] && Matching(files, rows, cols) == []
  {
    if files != [] {
      var init := files[..|files| - 1];
      BeforeFirst(init, rows, cols);
      assert forall k :: 0 <= k < |init| ==> files[k] == init[k];
    }
  }

  /** The first volume is that of some file, and every file before it is unreadable. */
  lemma {:induction false} FirstVolumeIsFirst(files: seq<Option<Volume>>)
    requires FirstVolume(files).Some?
    ensures exists k :: 0 <= k < |files| && files[k] == FirstVolume(files) &&
                        forall l :: 0 <= l < k ==> files[l].None?
  {
    var init := files[..|files| - 1];
    if FirstVolume(init).Some? {
      FirstVolumeIsFirst(init);
      var k :| 0 <= k < |init| && init[k] == FirstVolume(init) && forall l :: 0 <= l < k ==> init[l].None?;
      assert files[k] == init[k];
      assert forall l :: 0 <= l < k ==> files[l] == init[l];
    } else {
      BeforeFirst(init, 0, 0);
      assert forall l :: 0 <= l < |init| ==> files[l] == init[l];
    }
  }

  /** Once read, the first volume stays the first as more files come. */
  lemma {:induction false} FirstVolumePrefix(files: seq<Option<Volume>>, k: nat)
    requires k <= |files| && FirstVolume(files[..k]).Some?
    ensures FirstVolume(files) == FirstVolume(files[..k])
    decreases |files| - k
  {
    if k == |files| {
      assert files[..k] == files;
    } else {
      var init := files[..|files| - 1];
      assert init[..k] == files[..k];
      FirstVolumePrefix(init, k);
    }
  }

  /** The first volume is read from a readable file, so it is well formed. */
  lemma FirstWellFormed(files: seq<Option<Volume>>)
    requires Readable(files) && FirstVolume(files).Some?
    ensures WellFormed(FirstVolume(files).value)
  {
    FirstVolumeIsFirst(files);
  }

  /**
   * The driver pushes the first volume once more than the reference
   * filter lists it: `[first] + Matching(...)`, so the first volume's data
   * is pushed twice in a row.
   */
  lemma {:induction false} PushedIsFirstThenMatching(files: seq<Option<Volume>>)
    requires FirstVolume(files).Some?
    ensures var f := FirstVolume(files).value;
            Pushed(files) == [f.data] + Matching(files, f.rows, f.cols)
  {
    var f := FirstVolume(files).value;
    var init, last := files[..|files| - 1], files[|files| - 1];
    if FirstVolume(init).None? {
      BeforeFirst(init, f.rows, f.cols);
      assert last == Some(f);
    } else {
      PushedIsFirstThenMatching(init);
      var tail := if last.Some? && last.value.rows == f.rows && last.value.cols == f.cols then [last.value.data] else [];
      assert Step(FirstVolume(init), last) == tail;
      assert [f.data] + Matching(init, f.rows, f.cols) + tail == [f.data] + (Matching(init, f.rows, f.cols) + tail);
    }
  }

  /** The first two frames pushed are both the first volume's data. */
  lemma DoublePush(files: seq<Option<Volume>>)
    requires FirstVolume(files).Some?
    ensures var f := FirstVolume(files).value;
            |Pushed(files)| >= 2 && Pushed(files)[0] == f.data && Pushed(files)[1] == f.data
  {
    var f := FirstVolume(files).value;
    PushedIsFirstThenMatching(files);
    FirstVolumeIsFirst(files);
    var k :| 0 <= k < |files| && files[k] == Some(f) && forall l :: 0 <= l < k ==> files[l].None?;
    MatchingStartsWith(files, k, f);
  }

  /** The reference filter lists the first volume first. */
  lemma {:induction false} MatchingStartsWith(files: seq<Option<Volume>>, k: nat, f: Volume)
    requires k < |files| && files[k] == Some(f) && forall l :: 0 <= l < k ==> files[l].None?
    ensures |Matching(files, f.rows, f.cols)| >= 1 && Matching(files, f.rows, f.cols)[0] == f.data
  {
    var init := files[..|files| - 1];
    if k == |files| - 1 {
      BeforeMatch(init, f.rows, f.cols);
    } else {
      assert init[k] == files[k];
      assert forall l :: 0 <= l < k ==> init[l] == files[l];
      MatchingStartsWith(init, k, f);
    }
  }

  /** With no readable file, nothing matches. */
  lemma {:induction false} BeforeMatch(files: seq<Option<Volume>>, rows: nat, cols: nat)
    requires forall l :: 0 <= l < |files| ==> files[l].None?
    ensures Matching(files, rows, cols) == []
  {
    if files != [] {
      var init := files[..|files| - 1];
      assert forall l :: 0 <= l < |init| ==> init[l] == files[l];
      BeforeMatch(init, rows, cols);
    }
  }

  /** Every pushed frame has the first volume's shape. */
  lemma {:induction false} PushedShapes(files: seq<Option<Volume>>)
    requires Readable(files)
    ensures FirstVolume(files).None? ==> Pushed(files) == []
    ensures FirstVolume(files).Some? ==>
              var f := FirstVolume(files).value;
              forall k :: 0 <= k < |Pushed(files)| ==> Shaped(Pushed(files)[k], f.rows, f.cols)
  {
    if files != [] {
      var init := files[..|files| - 1];
      assert forall k :: 0 <= k < |init| ==> init[k] == files[k];
      PushedShapes(init);
      if FirstVolume(init).Some? {
        FirstVolumePrefix(files, |files| - 1);
      }
    }
  }

  /** `first_shape`'s first push raises exactly when the first volume has no present gate and is not a single gate. */
  lemma FirstPushFails(v: Volume)
    requires WellFormed(v)
    ensures DstackFails(false, Fresh(v.rows, v.cols), v.data) <==> !SomePresent(v.data) && !(v.rows == 1 && v.cols == 1)
  {
    assert NoneCounted(Fresh(v.rows, v.cols));
  }

  /** The accumulator's state after the driver has pushed every selected frame. */
  function Accumulated(files: seq<Option<Volume>>): (g: Stats)
    requires Readable(files) && FirstVolume(files).Some?
    ensures Shaped(g, FirstVolume(files).value.rows, FirstVolume(files).value.cols)
  {
    var f := FirstVolume(files).value;
    PushedShapes(files);
    PushAll(Fresh(f.rows, f.cols), Pushed(files))
  }

  /**
   * The outcome of the loop: it raises if the first push does; with no
   * readable file the accumulator is never pushed to; otherwise the
   * accumulated state.
   */
  function Streamed(files: seq<Option<Volume>>): (r: Result<Option<Stats>, string>)
    requires Readable(files)
    ensures r == Success(None) <==> forall k :: 0 <= k < |files| ==> files[k].None?
    ensures r.Failure? <==> FirstVolume(files).Some? &&
                            DstackFails(false, Fresh(FirstVolume(files).value.rows, FirstVolume(files).value.cols), FirstVolume(files).value.data)
    ensures r.Failure? ==> r.error == DstackError
  {
    match FirstVolume(files)
    case None => Success(None)
    case Some(f) =>
      if !SomePresent(f.data) && !(f.rows == 1 && f.cols == 1) then Failure(DstackError)
      else Success(Some(Accumulated(files)))
  }

  /** Pushing one more frame extends `PushAll` by one `Push`. */
  lemma PushAllSnoc(g: Stats, frames: seq<Frame>, x: Frame)
    requires forall k :: 0 <= k < |frames| ==> SameShape(g, frames[k])
    requires SameShape(g, x)
    ensures PushAll(g, frames + [x]) == Push(PushAll(g, frames), x)
  {
    assert (frames + [x])[..|frames|] == frames;
  }

  /** Every frame of `a + b` has the grid's shape when those of `a` and `b` do. */
  lemma AppendShapes(g: Stats, a: seq<Frame>, b: seq<Frame>)
    requires forall k :: 0 <= k < |a| ==> SameShape(g, a[k])
    requires forall k :: 0 <= k < |b| ==> SameShape(g, b[k])
    ensures forall k :: 0 <= k < |a + b| ==> SameShape(g, (a + b)[k])
  {
  }

  /** Pushing `a` then `b` is pushing `a + b`. */
  lemma {:induction false} PushAllAppend(g: Stats, a: seq<Frame>, b: seq<Frame>)
    requires forall k :: 0 <= k < |a| ==> SameShape(g, a[k])
    requires forall k :: 0 <= k < |b| ==> SameShape(g, b[k])
    ensures forall k :: 0 <= k < |b| ==> SameShape(PushAll(g, a), b[k])
    ensures PushAll(g, a + b) == PushAll(PushAll(g, a), b)
    decreases |b|
  {
    var p := PushAll(g, a);
    forall k | 0 <= k < |b|
      ensures SameShape(p, b[k])
    {
      SameShapeTrans(p, g, b[k]);
    }
    if b == [] {
      assert a + b == a;
    } else {
      var front, x := b[..|b| - 1], b[|b| - 1];
      assert b == front + [x];
      assert a + b == (a + front) + [x];
      PushAllAppend(g, a, front);
      AppendShapes(g, a, front);
      PushAllSnoc(g, a + front, x);
      PushAllSnoc(p, front, x);
    }
  }

  /**
   * Along the driver's stream the accumulator describes every frame it
   * pushed (mean and sum of squared deviations per gate), provided the
   * first volume has a present gate: its double push settles the grid, so
   * the first-push branch that loses means never runs again.
   */
  lemma DriverTracks(files: seq<Option<Volume>>)
    requires Readable(files) && FirstVolume(files).Some? && SomePresent(FirstVolume(files).value.data)
    ensures Streamed(files) == Success(Some(Accumulated(files)))
    ensures TracksAll(Accumulated(files), Pushed(files)) && Settled(Accumulated(files))
  {
    var f := FirstVolume(files).value;
    var frames := Pushed(files);
    var rest := frames[2..];
    SplitTwo(frames);
    FirstWellFormed(files);
    PushedShapes(files);
    DoubleThenRest(Fresh(f.rows, f.cols), f.data, rest);
  }

  /** A sequence of two or more elements is its first two followed by the rest. */
  lemma SplitTwo<T>(s: seq<T>)
    requires |s| >= 2
    ensures s == [s[0], s[1]] + s[2..]
  {
  }

  /** A double push of a frame with a present gate, then any frames: the state describes them all. */
  lemma DoubleThenRest(g0: Stats, x: Frame, rest: seq<Frame>)
    requires NoneCounted(g0) && SameShape(g0, x) && SomePresent(x)
    requires forall k :: 0 <= k < |rest| ==> SameShape(g0, rest[k])
    ensures forall k :: 0 <= k < |[x, x] + rest| ==> SameShape(g0, ([x, x] + rest)[k])
    ensures TracksAll(PushAll(g0, [x, x] + rest), [x, x] + rest) && Settled(PushAll(g0, [x, x] + rest))
  {
    AppendShapes(g0, [x, x], rest);
    PushAllAppend(g0, [x, x], rest);
    var g2 := TwoPushesTrack(g0, x);
    SettledPushAll(g2, [x, x], rest);
  }

  /**
   * Along the driver's stream, when the first volume has a present gate,
   * the accumulator as written ends in the same state as the intended one
   * (`PushCorrected` at every push): the double push keeps the faulty
   * first-push branch from ever running on a counted gate.
   */
  lemma DriverMatchesCorrected(files: seq<Option<Volume>>)
    requires Readable(files) && FirstVolume(files).Some? && SomePresent(FirstVolume(files).value.data)
    ensures var f := FirstVolume(files).value;
            forall k :: 0 <= k < |Pushed(files)| ==> SameShape(Fresh(f.rows, f.cols), Pushed(files)[k])
    ensures var f := FirstVolume(files).value;
            Accumulated(files) == PushAllCorrected(Fresh(f.rows, f.cols), Pushed(files))
  {
    var f := FirstVolume(files).value;
    PushedShapes(files);
    DriverTracks(files);
    SettledIsCorrected(Accumulated(files), f.rows, f.cols, Pushed(files));
  }

  /**
   * The double push of a frame with a present gate into an empty grid
   * leaves a settled grid describing both pushes.
   */
  lemma TwoPushesTrack(g0: Stats, x: Frame) returns (g2: Stats)
    requires NoneCounted(g0) && SameShape(g0, x) && SomePresent(x)
    ensures g2 == PushAll(g0, [x, x]) && SameShape(g2, g0)
    ensures TracksAll(g2, [x, x]) && Settled(g2)
  {
    assert [x] + [x] == [x, x];
    PushAllTwice(g0, x);
    FirstPushTracks(g0, x);
    var g1 := Push(g0, x);
    TwicePushedSettles(g0, x);
    PushTracks(g1, [x], x);
    g2 := Push(g1, x);
  }

  /** Pushing `[x, x]` is pushing `x` twice. */
  lemma PushAllTwice(g0: Stats, x: Frame)
    requires SameShape(g0, x)
    ensures PushAll(g0, [x, x]) == Push(Push(g0, x), x)
  {
    assert [] + [x] == [x];
    assert [x] + [x] == [x, x];
    PushAllSnoc(g0, [], x);
    PushAllSnoc(g0, [x], x);
  }

  /** Pushing a frame with a present gate twice into an empty grid counts that gate twice. */
  lemma TwicePushedSettles(g: Stats, x: Frame)
    requires NoneCounted(g) && SameShape(g, x) && SomePresent(x)
    ensures !MaxIsOne(AddCounts(Push(g, x), x)) && Settled(Push(Push(g, x), x))
  {
    var i, j :| 0 <= i < |x| && 0 <= j < |x[i]| && x[i][j].Some?;
    var g1: Stats := Push(g, x);
    assert g1[i][j].n == 1;
    assert AddCounts(g1, x)[i][j].n == 2;
    assert Push(g1, x)[i][j].n == 2;
  }

  /**
   * The loop at `tall_clutter`: reads each file, creates the accumulator
   * shape at the first readable volume and pushes frames as `Pushed`
   * selects them; it fails if the first push raises.
   */
  method Stream(files: seq<Option<Volume>>) returns (r: Result<Option<RunningStats>, string>)
    requires Readable(files)
    ensures r.Failure? <==> Streamed(files).Failure?
    ensures r.Failure? ==> r.error == Streamed(files).error
    ensures r.Success? ==> (r.value.None? <==> Streamed(files).value.None?)
    ensures r.Success? && r.value.Some? ==>
              r.value.value.Valid() && Streamed(files).value.Some? &&
              r.value.value.Grid() == Streamed(files).value.value &&
              r.value.value.counted && r.value.value.Variance().Success?
  {
    var stats: RunningStats? := null;
    var k := 0;
    while k < |files|
      invariant 0 <= k <= |files|
      invariant stats == null <==> FirstVolume(files[..k]).None?
      invariant stats != null ==>
                  fresh(stats) && fresh(stats.n) && fresh(stats.oldM) && fresh(stats.newM) &&
                  fresh(stats.oldS) && fresh(stats.newS) && stats.Valid() && stats.started && stats.counted &&
                  var f := FirstVolume(files[..k]).value;
                  stats.rows == f.rows && stats.cols == f.cols &&
                  (SomePresent(f.data) || (f.rows == 1 && f.cols == 1)) &&
                  stats.Grid() == Accumulated(files[..k])
    {
      PrefixReadable(files, k + 1);
      if stats == null {
        AccumulatedFirst(files, k);
        if files[k].Some? {
          var v := files[k].value;
          var ok;
          stats, ok := Start(v);
          if !ok {
            FirstVolumePrefix(files, k + 1);
            return Failure(DstackError);
          }
          PushIfMatching(stats, v);
        }
      } else {
        if files[k].Some? {
          PushIfMatching(stats, files[k].value);
        }
        AccumulatedNext(files, k);
      }
      k := k + 1;
    }
    assert files[..k] == files;
    if stats == null {
      return Success(None);
    }
    return Success(Some(stats));
  }

  /**
   * `first_shape == 0` at a readable file: a new accumulator of the
   * volume's shape, and its first push, which fails exactly as
   * `FirstPushFails` says.
   */
  method Start(v: Volume) returns (stats: RunningStats, ok: bool)
    requires WellFormed(v)
    ensures fresh(stats) && fresh(stats.n) && fresh(stats.oldM) && fresh(stats.newM)
    ensures fresh(stats.oldS) && fresh(stats.newS) && stats.Valid()
    ensures stats.rows == v.rows && stats.cols == v.cols && stats.counted
    ensures ok == (SomePresent(v.data) || (v.rows == 1 && v.cols == 1))
    ensures ok ==> stats.started && stats.Grid() == Push(Fresh(v.rows, v.cols), v.data)
  {
    stats := new RunningStats(v.rows, v.cols);
    FirstPushFails(v);
    ok := stats.Push(v.data);
  }

  /** `if reflect_array.shape == first_shape: run_stats.push(reflect_array)`. */
  method PushIfMatching(stats: RunningStats, v: Volume)
    requires stats.Valid() && stats.started && WellFormed(v)
    modifies stats, stats.n, stats.oldM, stats.newM, stats.oldS, stats.newS
    ensures stats.Valid() && stats.started
    ensures stats.counted == (old(stats.counted) || (v.rows == stats.rows && v.cols == stats.cols))
    ensures v.rows == stats.rows && v.cols == stats.cols ==> stats.Grid() == Push(old(stats.Grid()), v.data)
    ensures !(v.rows == stats.rows && v.cols == stats.cols) ==> stats.Grid() == old(stats.Grid())
  {
    if v.rows == stats.rows && v.cols == stats.cols {
      var pushed := stats.Push(v.data);
    }
  }

  /** A prefix of readable files is readable. */
  lemma PrefixReadable(files: seq<Option<Volume>>, k: nat)
    requires Readable(files) && k <= |files|
    ensures Readable(files[..k])
  {
    assert forall l :: 0 <= l < k ==> files[..k][l] == files[l];
  }

  /** The first readable file: the accumulator holds its frame pushed twice. */
  lemma AccumulatedFirst(files: seq<Option<Volume>>, k: nat)
    requires Readable(files) && k < |files| && FirstVolume(files[..k]).None?
    ensures Readable(files[..k + 1]) && FirstVolume(files[..k + 1]) == files[k]
    ensures files[k].Some? ==>
              var v := files[k].value;
              Accumulated(files[..k + 1]) == Push(Push(Fresh(v.rows, v.cols), v.data), v.data)
  {
    PrefixReadable(files, k + 1);
    StepState(files, k);
    BeforeFirst(files[..k], 0, 0);
    if files[k].Some? {
      var v := files[k].value;
      assert Pushed(files[..k + 1]) == [v.data, v.data];
      PushAllTwice(Fresh(v.rows, v.cols), v.data);
    }
  }

  /** A later file: pushed onto the accumulator iff its shape is the first volume's. */
  lemma AccumulatedNext(files: seq<Option<Volume>>, k: nat)
    requires Readable(files) && k < |files| && FirstVolume(files[..k]).Some?
    ensures Readable(files[..k + 1]) && Readable(files[..k])
    ensures FirstVolume(files[..k + 1]) == FirstVolume(files[..k])
    ensures var f := FirstVolume(files[..k]).value;
            if files[k].Some? && files[k].value.rows == f.rows && files[k].value.cols == f.cols
            then Accumulated(files[..k + 1]) == Push(Accumulated(files[..k]), files[k].value.data)
            else Accumulated(files[..k + 1]) == Accumulated(files[..k])
  {
    PrefixReadable(files, k + 1);
    PrefixReadable(files, k);
    StepState(files, k);
    var f := FirstVolume(files[..k]).value;
    var g0 := Fresh(f.rows, f.cols);
    PushedShapes(files[..k + 1]);
    PushedShapes(files[..k]);
    if files[k].Some? && files[k].value.rows == f.rows && files[k].value.cols == f.cols {
      PushAllSnoc(g0, Pushed(files[..k]), files[k].value.data);
    } else {
      assert Step(FirstVolume(files[..k]), files[k]) == [];
      AppendEmpty(Pushed(files[..k]));
    }
  }

  /** Appending nothing leaves a sequence as it is. */
  lemma AppendEmpty<T>(s: seq<T>)
    ensures s + [] == s
  {
  }

  /** How `Pushed` and `FirstVolume` grow by one file. */
  lemma StepState(files: seq<Option<Volume>>, k: nat)
    requires k < |files|
    ensures FirstVolume(files[..k + 1]) == (if FirstVolume(files[..k]).Some? then FirstVolume(files[..k]) else files[k])
    ensures Pushed(files[..k + 1]) == Pushed(files[..k]) + Step(FirstVolume(files[..k]), files[k])
  {
    assert files[..k + 1][..k] == files[..k];
  }
}
