/**
 * The per-gate arithmetic of Welford's online mean and variance, over the
 * reals. A gate's history is the sequence of present values it has received,
 * in arrival order; the accumulator's state for the gate is meant to be the
 * mean of that history and the sum of squared deviations from that mean.
 *
 * The algebra is done in lemmas over plain reals (`...Arith`), so that the
 * lemmas about histories only have to match terms.
 */
module Welford {

  function Sum(h: seq<real>): real
  {
    if h == [] then 0.0 else Sum(h[..|h| - 1]) + h[|h| - 1]
  }

  function SumSq(h: seq<real>): real
  {
    if h == [] then 0.0 else SumSq(h[..|h| - 1]) + h[|h| - 1] * h[|h| - 1]
  }

  /** The arithmetic mean of a non-empty history. */
  function Average(h: seq<real>): real
    requires h != []
  {
    Sum(h) / (|h| as real)
  }

  /** The sum of squared deviations of the history from `c`. */
  function SqDev(h: seq<real>, c: real): real
  {
    if h == [] then 0.0 else SqDev(h[..|h| - 1], c) + (h[|h| - 1] - c) * (h[|h| - 1] - c)
  }

  /**
   * A gate's count `n`, mean `m` and sum of squares `s` describe exactly the
   * history `h`; a gate that has seen nothing holds zeros.
   */
  ghost predicate Tracks(n: nat, m: real, s: real, h: seq<real>)
  {
    n == |h| &&
    if h == [] then m == 0.0 && s == 0.0
    else m == Average(h) && s == SqDev(h, Average(h))
  }

  /** Appending one value extends both raw sums by one term. */
  lemma SumsSnoc(h: seq<real>, v: real)
    ensures Sum(h + [v]) == Sum(h) + v
    ensures SumSq(h + [v]) == SumSq(h) + v * v
  {
    assert (h + [v])[..|h|] == h;
  }

  /** Appending one value extends the sum of squared deviations by one term. */
  lemma SqDevSnoc(h: seq<real>, v: real, c: real)
    ensures SqDev(h + [v], c) == SqDev(h, c) + (v - c) * (v - c)
  {
    assert (h + [v])[..|h|] == h;
  }

  /** The sum of squared deviations, expanded into the raw sums. */
  lemma {:induction false} SqDevExpand(h: seq<real>, c: real)
    ensures SqDev(h, c) == SumSq(h) - 2.0 * c * Sum(h) + (|h| as real) * c * c
  {
    if h != [] {
      var t, v := h[..|h| - 1], h[|h| - 1];
      assert h == t + [v];
      SqDevExpand(t, c);
      SumsSnoc(t, v);
      SqDevSnoc(t, v, c);
      var d, q, S, k := SqDev(h, c), SumSq(h), Sum(h), |h| as real;
      var dt, qt, St, kt := SqDev(t, c), SumSq(t), Sum(t), |t| as real;
      ExpandArith(d, q, S, k, dt, qt, St, kt, c, v);
    }
  }

  /** One more term in the expansion of a sum of squared deviations. */
  lemma ExpandArith(d: real, q: real, S: real, k: real,
                    dt: real, qt: real, St: real, kt: real, c: real, v: real)
    requires d == dt + (v - c) * (v - c) && q == qt + v * v && S == St + v && k == kt + 1.0
    requires dt == qt - 2.0 * c * St + kt * c * c
    ensures d == q - 2.0 * c * S + k * c * c
  {
  }

  /** Centring: the sum of squared deviations from the mean is `SumSq - mean * Sum`. */
  lemma Centred(h: seq<real>, c: real, S: real, Q: real, k: real)
    requires h != [] && S == Sum(h) && Q == SumSq(h) && k == |h| as real && c == S / k
    ensures SqDev(h, c) == Q - c * S
  {
    SqDevExpand(h, c);
    CentreArith(SqDev(h, c), Q, S, k, c);
  }

  /** Centring, on plain reals. */
  lemma CentreArith(d: real, q: real, S: real, k: real, m: real)
    requires k > 0.0 && m == S / k && d == q - 2.0 * m * S + k * m * m
    ensures d == q - m * S
  {
    assert k * m == S;
    assert k * m * m == S * m;
  }

  /** One step of Welford's update, on plain reals: the old state is given by raw sums. */
  lemma StepArith(k: real, k1: real, S: real, Q: real, v: real, m: real, s: real, m': real, s': real)
    requires k > 0.0 && k1 == k + 1.0 && m == S / k && s == Q - m * S
    requires m' == m + (v - m) / k1 && s' == s + (v - m) * (v - m')
    ensures m' == (S + v) / k1 && s' == (Q + v * v) - m' * (S + v)
  {
    assert k * m == S;
    assert k1 * ((v - m) / k1) == v - m;
    assert k1 * m' == S + v;
    SquareArith(k, m, m', S, v, Q);
  }

  /** The algebra behind Welford's update of the sum of squares. */
  lemma SquareArith(k: real, m: real, m': real, S: real, v: real, Q: real)
    requires k > 0.0 && k * m == S && (k + 1.0) * m' == S + v
    ensures (Q - m * S) + (v - m) * (v - m') == Q + v * v - m' * (S + v)
  {
  }

  /** A history of one value has that value as its mean and no spread. */
  lemma Single(v: real)
    ensures Average([v]) == v && SqDev([v], v) == 0.0
  {
    SumsSnoc([], v);
    SqDevSnoc([], v, v);
    assert [] + [v] == [v];
  }

  /**
   * Welford's step: given the state for `h`, the mean moved by
   * `(v - m) / (n + 1)` and the sum of squares grown by `(v - m) * (v - m')`
   * is the state for `h + [v]`. A gate seeing its first value gets that value
   * as its mean and a zero sum of squares.
   */
  lemma WelfordStep(n: nat, m: real, s: real, h: seq<real>, v: real, m': real, s': real)
    requires Tracks(n, m, s, h)
    requires m' == m + (v - m) / ((n + 1) as real) && s' == s + (v - m) * (v - m')
    ensures Tracks(n + 1, m', s', h + [v])
  {
    if h == [] {
      Single(v);
      assert [] + [v] == [v];
    } else {
      StepNonEmpty(h, m, s, v, m', s');
    }
  }

  /** Welford's step for a gate that has already seen a value. */
  lemma StepNonEmpty(h: seq<real>, m: real, s: real, v: real, m': real, s': real)
    requires h != [] && m == Average(h) && s == SqDev(h, m)
    requires m' == m + (v - m) / ((|h| + 1) as real) && s' == s + (v - m) * (v - m')
    ensures m' == Average(h + [v]) && s' == SqDev(h + [v], m')
  {
    var S, Q, k := Sum(h), SumSq(h), |h| as real;
    Centred(h, m, S, Q, k);
    StepArith(k, (|h| + 1) as real, S, Q, v, m, s, m', s');
    var hv := h + [v];
    SumsSnoc(h, v);
    var S2, Q2, k2 := Sum(hv), SumSq(hv), |hv| as real;
    FinishArith(S2, Q2, k2, S, Q, (|h| + 1) as real, v, m', s');
    Centred(hv, m', S2, Q2, k2);
  }

  /** Restating the result of a step in the sums of the extended history. */
  lemma FinishArith(S2: real, Q2: real, k2: real, S: real, Q: real, k1: real, v: real, m': real, s': real)
    requires S2 == S + v && Q2 == Q + v * v && k2 == k1 && k1 > 0.0
    requires m' == (S + v) / k1 && s' == (Q + v * v) - m' * (S + v)
    ensures m' == S2 / k2 && s' == Q2 - m' * S2
  {
  }

  /** The sample variance of a history of at least two values. */
  function SampleVariance(h: seq<real>): real
    requires |h| >= 2
  {
    SqDev(h, Average(h)) / ((|h| - 1) as real)
  }

  /** A sum of squared deviations is never negative. */
  lemma {:induction false} SqDevNonNeg(h: seq<real>, c: real)
    ensures SqDev(h, c) >= 0.0
  {
    if h != [] {
      SqDevNonNeg(h[..|h| - 1], c);
      var d := h[|h| - 1] - c;
      SquareNonNeg(d);
    }
  }

  /** The sample variance is never negative. */
  lemma SampleVarianceNonNeg(h: seq<real>)
    requires |h| >= 2
    ensures SampleVariance(h) >= 0.0
  {
    SqDevNonNeg(h, Average(h));
  }

  /** A square is never negative. */
  lemma SquareNonNeg(d: real)
    ensures d * d >= 0.0
  {
    if d < 0.0 {
      assert (-d) * (-d) == d * d;
    }
  }
}
