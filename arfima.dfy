/**
  The deterministic part of the ARFIMA generator of data/_arfima.py: the
  MA filter over a noise sequence, the AR recursion, the fractional
  difference by the fast algorithm of Jensen and Nielsen (2014), and their
  composition. The random draws of the noise are replaced by a noise
  sequence passed in; the FFT pair is replaced by the circular convolution
  it computes.
 */
module Arfima {
  import opened Indexing

  /** n zeros (np.zeros(n)). */
  function Zeros(n: nat): (r: seq<real>)
    ensures |r| == n && forall i :: 0 <= i < n ==> r[i] == 0.0
  {
    seq(n, _ => 0.0)
  }

  /**
    np.dot(c[..k], [x[idx], x[idx - 1], ..., x[idx - k + 1]]): the first k
    coefficients against x read backwards from position idx.
   */
  function Lagged(c: seq<real>, x: seq<real>, idx: int, k: nat): real
    requires k <= |c| && k <= idx + 1 && idx < |x|
  {
    if k == 0 then 0.0 else Lagged(c, x, idx, k - 1) + c[k - 1] * x[idx - (k - 1)]
  }

  /** A leading coefficient 1 contributes x[idx] itself. */
  lemma {:induction false} LaggedUnit(p: seq<real>, x: seq<real>, idx: int, k: nat)
    requires k <= |p| && k <= idx && idx < |x|
    ensures Lagged([1.0] + p, x, idx, k + 1) == x[idx] + Lagged(p, x, idx - 1, k)
  {
    if k > 0 {
      LaggedUnit(p, x, idx, k - 1);
      assert ([1.0] + p)[k] == p[k - 1];
    }
  }

  /** Only positions idx - k + 1 .. idx of x matter. */
  lemma {:induction false} LaggedPrefix(c: seq<real>, x: seq<real>, y: seq<real>, idx: int, k: nat)
    requires k <= |c| && k <= idx + 1 && idx < |x| && idx < |y|
    requires forall i :: idx - k < i <= idx ==> x[i] == y[i]
    ensures Lagged(c, x, idx, k) == Lagged(c, y, idx, k)
  {
    if k > 0 {
      LaggedPrefix(c, x, y, idx, k - 1);
    }
  }

  // ---------------------------------------------------------------------
  // MA filter (__ma_model, data/_arfima.py:6-44)
  // ---------------------------------------------------------------------

  /**
    The n values the MA loop writes: value t is
    noise[t + q] + params[0] * noise[t + q - 1] + ... + params[q - 1] * noise[t].
   */
  function MaSeries(params: seq<real>, n: nat, noise: seq<real>): (r: seq<real>)
    requires |noise| == n + |params|
    ensures |r| == n
  {
    seq(n, t requires 0 <= t < n => Lagged([1.0] + params, noise, t + |params|, |params| + 1))
  }

  /** What __ma_model returns: the noise itself for q = 0, otherwise ma_series[q:]. */
  function MaAsWritten(params: seq<real>, n: nat, noise: seq<real>): seq<real>
    requires |noise| == n + |params|
  {
    if |params| == 0 then noise else Slice(MaSeries(params, n, noise), |params|, n)
  }

  /** What the docstring promises: the n_points values of the MA process. */
  function MaCorrected(params: seq<real>, n: nat, noise: seq<real>): seq<real>
    requires |noise| == n + |params|
  {
    if |params| == 0 then noise else MaSeries(params, n, noise)
  }

  /** The MA loop of data/_arfima.py:37-44, over a preallocated array. */
  method MaModel(params: seq<real>, n: nat, noise: seq<real>) returns (out: seq<real>)
    requires |noise| == n + |params|
    ensures out == MaAsWritten(params, n, noise)
  {
    var q := |params|;
    if q == 0 {
      return noise;
    }
    var coeffs := [1.0] + params;
    var series := new real[n](_ => 0.0);
    for idx := q to n + q
      invariant forall t :: 0 <= t < idx - q ==> series[t] == MaSeries(params, n, noise)[t]
    {
      var acc := 0.0;
      for m := 0 to q + 1
        invariant acc == Lagged(coeffs, noise, idx, m)
      {
        acc := acc + coeffs[m] * noise[idx - m];
      }
      series[idx - q] := acc;
    }
    assert series[..] == MaSeries(params, n, noise);
    out := Slice(series[..], q, n);
  }

  /** With q = 0 the MA filter returns the n_points noise values unchanged. */
  lemma MaOrderZero(n: nat, noise: seq<real>)
    requires |noise| == n
    ensures MaAsWritten([], n, noise) == noise && |MaAsWritten([], n, noise)| == n
  {
  }

  /** Each value is the MA equation x[t] = e[t] + params[1] e[t-1] + ... of the docstring, over the noise. */
  lemma MaValue(params: seq<real>, n: nat, noise: seq<real>, t: int)
    requires |noise| == n + |params| && 0 <= t < n
    ensures var q := |params|;
            MaCorrected(params, n, noise)[t] == noise[t + q] + Lagged(params, noise, t + q - 1, q)
  {
    if |params| > 0 {
      LaggedUnit(params, noise, t + |params|, |params|);
    }
  }

  /** The corrected filter returns n_points values, as the docstring says. */
  lemma MaCorrectedLength(params: seq<real>, n: nat, noise: seq<real>)
    requires |noise| == n + |params|
    ensures |MaCorrected(params, n, noise)| == n
  {
  }

  /**
    As written, the filter drops the first q of the n_points values it
    computed, so for q > 0 it returns max(n_points - q, 0) values.
   */
  lemma MaDropsLeading(params: seq<real>, n: nat, noise: seq<real>)
    requires |noise| == n + |params| && |params| > 0
    ensures |MaAsWritten(params, n, noise)| == RangeLen(n - |params|)
    ensures |params| <= n ==> MaAsWritten(params, n, noise) == MaCorrected(params, n, noise)[|params|..]
  {
  }

  /** The smallest case: MA(1) asked for 3 points returns 2. */
  lemma MaShortExample(noise: seq<real>)
    requires |noise| == 4
    ensures |MaAsWritten([0.5], 3, noise)| == 2 && |MaCorrected([0.5], 3, noise)| == 3
  {
    MaDropsLeading([0.5], 3, noise);
  }

  // ---------------------------------------------------------------------
  // AR recursion (__arma_model, data/_arfima.py:47-71)
  // ---------------------------------------------------------------------

  /**
    The first k outputs of the AR recursion with order p = |params| > 0:
    output t is noise[t] plus params against the p values before it, where
    values before the start are the zero seeds.
   */
  function ArPrefix(params: seq<real>, noise: seq<real>, k: nat): (r: seq<real>)
    requires |params| > 0 && k <= |noise|
    ensures |r| == k
  {
    if k == 0 then []
    else
      var prev := ArPrefix(params, noise, k - 1);
      prev + [noise[k - 1] + Lagged(params, Zeros(|params|) + prev, k - 2 + |params|, |params|)]
  }

  /** What __arma_model returns: the noise for p = 0, otherwise the recursion over all of it. */
  function ArModel(params: seq<real>, noise: seq<real>): seq<real>
  {
    if |params| == 0 then noise else ArPrefix(params, noise, |noise|)
  }

  /** np.dot(params, arma_series[idx - 1 : idx - p - 1 : -1]): the inner product of one AR step. */
  method LagDot(params: seq<real>, series: array<real>, idx: int) returns (acc: real)
    requires |params| <= idx <= series.Length
    ensures acc == Lagged(params, series[..idx], idx - 1, |params|)
  {
    acc := 0.0;
    for i := 0 to |params|
      invariant acc == Lagged(params, series[..idx], idx - 1, i)
    {
      acc := acc + params[i] * series[idx - 1 - i];
    }
  }

  /** The AR loop of data/_arfima.py:63-71: it reads back its own earlier writes. */
  method ArmaModel(params: seq<real>, noise: seq<real>) returns (out: seq<real>)
    ensures out == ArModel(params, noise)
  {
    var p := |params|;
    if p == 0 {
      return noise;
    }
    var n := |noise|;
    var series := new real[n + p](_ => 0.0);
    assert series[..p] == Zeros(p);
    for idx := p to n + p
      invariant series[..idx] == Zeros(p) + ArPrefix(params, noise, idx - p)
    {
      ArAdvance(params, noise, series, idx);
    }
    ghost var ar := ArPrefix(params, noise, n);
    assert series[..] == series[..n + p] == Zeros(p) + ar;
    out := series[p..];
    DropSeeds(series[..], p, ar);
    assert ArModel(params, noise) == ar;
  }

  /** arma_series[idx] = np.dot(params, arma_series[take_idx]) + noise[idx - p]: one iteration of the AR loop. */
  method ArAdvance(params: seq<real>, noise: seq<real>, series: array<real>, idx: int)
    requires 0 < |params| <= idx < series.Length && idx - |params| < |noise|
    requires series[..idx] == Zeros(|params|) + ArPrefix(params, noise, idx - |params|)
    modifies series
    ensures series[..idx + 1] == Zeros(|params|) + ArPrefix(params, noise, idx + 1 - |params|)
    ensures series[idx + 1..] == old(series[idx + 1..])
  {
    var acc := LagDot(params, series, idx);
    ghost var prefix := series[..idx];
    series[idx] := acc + noise[idx - |params|];
    assert series[..idx + 1] == prefix + [acc + noise[idx - |params|]];
    ArStep(params, noise, idx - |params|, prefix);
  }

  /** One more AR step appends noise[k] plus params against the last p values. */
  lemma ArStep(params: seq<real>, noise: seq<real>, k: nat, s: seq<real>)
    requires |params| > 0 && k < |noise| && s == Zeros(|params|) + ArPrefix(params, noise, k)
    ensures s + [Lagged(params, s, k - 1 + |params|, |params|) + noise[k]] == Zeros(|params|) + ArPrefix(params, noise, k + 1)
  {
  }

  lemma DropSeeds(s: seq<real>, p: nat, x: seq<real>)
    requires s == Zeros(p) + x
    ensures s[p..] == x
  {
  }

  /** Zero seeds only shorten the sum: reading past the start of the series adds nothing. */
  lemma {:induction false} LaggedSeeds(c: seq<real>, s: seq<real>, t: int, k: nat)
    requires 0 <= t <= |s| && k <= |c|
    ensures Lagged(c, Zeros(|c|) + s, t - 1 + |c|, k) == Lagged(c, s, t - 1, Min(k, t))
  {
    if k > 0 {
      LaggedSeeds(c, s, t, k - 1);
      if k <= t {
        assert (Zeros(|c|) + s)[t - 1 + |c| - (k - 1)] == s[t - 1 - (k - 1)];
      }
    }
  }

  /** A later output never changes an earlier one: the first k outputs do not depend on noise after k. */
  lemma {:induction false} ArPrefixStable(params: seq<real>, noise: seq<real>, k: nat, m: nat)
    requires |params| > 0 && k <= m <= |noise|
    ensures ArPrefix(params, noise, m)[..k] == ArPrefix(params, noise, k)
  {
    if m > k {
      ArPrefixStable(params, noise, k, m - 1);
      assert ArPrefix(params, noise, m)[..m - 1] == ArPrefix(params, noise, m - 1);
    }
  }

  /**
    The AR equation of the docstring: out[t] = noise[t] + params[0] out[t-1]
    + ... + params[min(p, t) - 1] out[t - min(p, t)], with as many terms as
    there are earlier outputs, and as many outputs as noise values.
   */
  lemma ArRecurrence(params: seq<real>, noise: seq<real>, t: int)
    requires 0 <= t < |noise|
    ensures var out := ArModel(params, noise);
            && |out| == |noise|
            && out[t] == noise[t] + Lagged(params, out, t - 1, Min(|params|, t))
  {
    var p := |params|;
    if p > 0 {
      var out := ArModel(params, noise);
      var prev := ArPrefix(params, noise, t);
      ArPrefixStable(params, noise, t + 1, |noise|);
      ArPrefixStable(params, noise, t, |noise|);
      assert out[t] == ArPrefix(params, noise, t + 1)[t];
      LaggedSeeds(params, prev, t, p);
      LaggedPrefix(params, prev + [out[t]], out, t - 1, Min(p, t));
      LaggedPrefix(params, prev, prev + [out[t]], t - 1, Min(p, t));
    }
  }

  /** The seeds are zero, so the first output is the first noise value. */
  lemma ArFirst(params: seq<real>, noise: seq<real>)
    requires |noise| > 0
    ensures ArModel(params, noise)[0] == noise[0]
  {
    ArRecurrence(params, noise, 0);
  }

  // ---------------------------------------------------------------------
  // Fractional difference (__frac_diff, data/_arfima.py:74-96)
  // ---------------------------------------------------------------------

  function Pow2(e: nat): (r: nat)
    ensures r >= 1
  {
    if e == 0 then 1 else 2 * Pow2(e - 1)
  }

  /** int.bit_length of a non-negative k: the number of binary digits. */
  function BitLength(k: nat): nat
  {
    if k == 0 then 0 else 1 + BitLength(k / 2)
  }

  /** fft_len = 2 ** next_pow2(2n - 1) = 2 ** (2n - 2).bit_length(). */
  function FftLen(n: nat): nat
  {
    Pow2(BitLength(if 2 * n - 2 >= 0 then 2 * n - 2 else 2 - 2 * n))
  }

  /** 2 ** bit_length(k) is the least power of two above k. */
  lemma {:induction false} BitLengthBounds(k: nat)
    requires k >= 1
    ensures BitLength(k) >= 1 && Pow2(BitLength(k) - 1) <= k < Pow2(BitLength(k))
  {
    if k > 1 {
      BitLengthBounds(k / 2);
    }
  }

  /**
    For n >= 1 the FFT length is a power of two that holds the 2n - 1 terms
    of the linear convolution, and is less than twice that.
   */
  lemma FftLenBounds(n: nat)
    requires n >= 1
    ensures 2 * n - 1 <= FftLen(n) < 2 * (2 * n - 1)
  {
    if n > 1 {
      BitLengthBounds(2 * n - 2);
    }
  }

  /** Coefficient k of the expansion of (1 - B)^d: the product over i = 1..k of (i - d - 1) / i. */
  function Coef(k: nat, d: real): real
  {
    if k == 0 then 1.0 else Coef(k - 1, d) * ((k as real) - d - 1.0) / (k as real)
  }

  /** frac_diff_coefs: [1] followed by the cumulative products for k = 1 .. n - 1. */
  function FracCoefs(n: nat, d: real): seq<real>
  {
    [1.0] + seq(RangeLen(n - 1), k requires 0 <= k => Coef(k + 1, d))
  }

  /** There are max(n, 1) coefficients, the first is 1 and each next one multiplies by (k - 1 - d) / k. */
  lemma FracCoefsRecurrence(n: nat, d: real, k: int)
    ensures var c := FracCoefs(n, d);
            && |c| == (if n == 0 then 1 else n)
            && c[0] == 1.0
            && (1 <= k < |c| ==> c[k] == c[k - 1] * ((k - 1) as real - d) / (k as real))
  {
    var c := FracCoefs(n, d);
    if 1 <= k < |c| {
      assert c[k - 1] == Coef(k - 1, d);
    }
  }

  /** With d = 0 every coefficient after the first is 0. */
  lemma {:induction false} CoefZero(k: nat)
    requires k >= 1
    ensures Coef(k, 0.0) == 0.0
  {
    if k > 1 {
      CoefZero(k - 1);
    }
  }

  /** s[i], or 0 past its end: the zero padding of fft(s, L). */
  function Pad(s: seq<real>, i: int): real
  {
    if 0 <= i < |s| then s[i] else 0.0
  }

  /** The first k terms of the circular convolution of length L at position t. */
  function CircSum(c: seq<real>, x: seq<real>, len: nat, t: int, k: nat): real
    requires len > 0
  {
    if k == 0 then 0.0 else CircSum(c, x, len, t, k - 1) + Pad(c, k - 1) * Pad(x, (t - (k - 1)) % len)
  }

  /** ifft(fft(x, L) * fft(c, L))[t]: the circular convolution of the zero-padded sequences. */
  function CircConv(c: seq<real>, x: seq<real>, len: nat, t: int): real
    requires len > 0
  {
    CircSum(c, x, len, t, len)
  }

  /** What __frac_diff returns: the first n values of the circular convolution of length fft_len. */
  function FracDiff(x: seq<real>, d: real): (r: seq<real>)
    ensures |r| == |x|
  {
    var n := |x|;
    seq(n, t => CircConv(FracCoefs(n, d), x, FftLen(n), t))
  }

  /** A residue already in [0, L) is itself, and one step below 0 wraps to the top. */
  lemma ModWrap(a: int, len: nat)
    requires 0 <= a < len
    ensures a % len == a && (a - len) % len == a
  {
    assert a - len == -1 * len + a;
  }

  /** Up to term t the circular sum has not wrapped around. */
  lemma {:induction false} CircHead(c: seq<real>, x: seq<real>, len: nat, t: int, k: nat)
    requires len > 0 && 0 <= t < len && t < |x| && k <= t + 1 && k <= |c|
    ensures CircSum(c, x, len, t, k) == Lagged(c, x, t, k)
  {
    if k > 0 {
      CircHead(c, x, len, t, k - 1);
      ModWrap(t - (k - 1), len);
    }
  }

  /** Past term t every wrapped term meets a zero of the padding, when len >= 2n - 1. */
  lemma {:induction false} CircTail(c: seq<real>, x: seq<real>, len: nat, t: int, k: nat)
    requires |c| == |x| && len >= 2 * |x| - 1 && len > 0 && 0 <= t < |x| && t + 1 <= k <= len
    ensures CircSum(c, x, len, t, k) == CircSum(c, x, len, t, t + 1)
  {
    if k > t + 1 {
      CircTail(c, x, len, t, k - 1);
      var j := k - 1;
      if j < |c| {
        ModWrap(t - j + len, len);
        assert Pad(x, (t - j) % len) == 0.0;
      }
    }
  }

  /**
    Because fft_len >= 2n - 1 the FFT product does not wrap around: value t
    is the causal convolution sum over k <= t of c[k] * x[t - k].
   */
  lemma FracDiffLinear(x: seq<real>, d: real, t: int)
    requires 0 <= t < |x|
    ensures FracDiff(x, d)[t] == Lagged(FracCoefs(|x|, d), x, t, t + 1)
  {
    var n := |x|;
    var c := FracCoefs(n, d);
    FftLenBounds(n);
    CircTail(c, x, FftLen(n), t, FftLen(n));
    CircHead(c, x, FftLen(n), t, t + 1);
  }

  /** With d = 0 all but the first coefficient vanish, so only x[t] itself remains. */
  lemma {:induction false} LaggedIdentity(c: seq<real>, x: seq<real>, t: int, k: nat)
    requires k <= |c| && k <= t + 1 && t < |x| && k >= 1
    requires c[0] == 1.0 && forall i :: 1 <= i < |c| ==> c[i] == 0.0
    ensures Lagged(c, x, t, k) == x[t]
  {
    if k > 1 {
      LaggedIdentity(c, x, t, k - 1);
    }
  }

  /** Differencing of order 0 returns the series unchanged. */
  lemma FracDiffIdentity(x: seq<real>)
    ensures FracDiff(x, 0.0) == x
  {
    var c := FracCoefs(|x|, 0.0);
    forall i | 1 <= i < |c|
      ensures c[i] == 0.0
    {
      CoefZero(i);
    }
    forall t | 0 <= t < |x|
      ensures FracDiff(x, 0.0)[t] == x[t]
    {
      FracDiffLinear(x, 0.0, t);
      LaggedIdentity(c, x, t, t + 1);
    }
  }

  // ---------------------------------------------------------------------
  // The composition (arfima, data/_arfima.py:99-136)
  // ---------------------------------------------------------------------

  /** series[-n:] (for n = 0 this is the whole series). */
  function Last(s: seq<real>, n: nat): seq<real>
  {
    Slice(s, -(n as int), |s|)
  }

  /** MA output, then differencing of order -d, then AR, then the last n_points values. */
  function ArfimaFrom(ma: seq<real>, arParams: seq<real>, d: real, n: nat): seq<real>
  {
    Last(ArModel(arParams, FracDiff(ma, -d)), n)
  }

  /** `arfima` of data/_arfima.py:131-136, with the noise of the MA step supplied. */
  method ArfimaSeries(arParams: seq<real>, d: real, maParams: seq<real>, n: nat, warmup: nat, noise: seq<real>)
    returns (series: seq<real>)
    requires |noise| == n + warmup + |maParams|
    ensures series == ArfimaFrom(MaAsWritten(maParams, n + warmup, noise), arParams, d, n)
  {
    var ma := MaModel(maParams, n + warmup, noise);
    ghost var spec := MaAsWritten(maParams, n + warmup, noise);
    assert ma == spec;
    series := ArfimaFromMa(ma, arParams, d, n);
    assert series == ArfimaFrom(spec, arParams, d, n);
  }

  /** The steps of `arfima` after the MA filter: differencing, the AR loop and the cut to n_points. */
  method ArfimaFromMa(ma: seq<real>, arParams: seq<real>, d: real, n: nat) returns (series: seq<real>)
    ensures series == ArfimaFrom(ma, arParams, d, n)
  {
    var fracMa := FracDiff(ma, -d);
    var s := ArmaModel(arParams, fracMa);
    series := Last(s, n);
  }

  /** Whatever the MA output, the result keeps the last min(n, |ma|) values (all of them for n = 0). */
  lemma ArfimaFromLength(ma: seq<real>, arParams: seq<real>, d: real, n: nat)
    ensures |ArfimaFrom(ma, arParams, d, n)| == if n == 0 then |ma| else Min(n, |ma|)
  {
    var s := ArModel(arParams, FracDiff(ma, -d));
    assert |s| == |ma| by {
      if |arParams| > 0 && |FracDiff(ma, -d)| > 0 {
        ArRecurrence(arParams, FracDiff(ma, -d), 0);
      }
    }
  }

  /**
    As written, a positive MA order q shortens the series: the output has
    min(n_points, n_points + warmup - q) values, fewer than n_points when
    warmup < q.
   */
  lemma ArfimaLength(arParams: seq<real>, d: real, maParams: seq<real>, n: nat, warmup: nat, noise: seq<real>)
    requires |noise| == n + warmup + |maParams| && n > 0
    ensures var out := ArfimaFrom(MaAsWritten(maParams, n + warmup, noise), arParams, d, n);
            |out| == (if |maParams| == 0 then n else Min(n, RangeLen(n + warmup - |maParams|)))
  {
    ArfimaFromLength(MaAsWritten(maParams, n + warmup, noise), arParams, d, n);
    if |maParams| > 0 {
      MaDropsLeading(maParams, n + warmup, noise);
    }
  }

  /** With the corrected MA filter the output has exactly n_points values, as the docstring says. */
  lemma ArfimaCorrectedLength(arParams: seq<real>, d: real, maParams: seq<real>, n: nat, warmup: nat, noise: seq<real>)
    requires |noise| == n + warmup + |maParams| && n > 0
    ensures |ArfimaFrom(MaCorrected(maParams, n + warmup, noise), arParams, d, n)| == n
  {
    ArfimaFromLength(MaCorrected(maParams, n + warmup, noise), arParams, d, n);
  }
}
