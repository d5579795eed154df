/** Template reconstruction in `load_kilosort_data`: removing the zero-padded
    prefix of every template's time axis, and undoing the whitening by
    right-multiplying each template's (time x channel) slice by the
    unwhitening matrix.

    Arrays carry their dimensions explicitly, so that an axis of length zero
    still has a known extent (numpy keeps the shape of an empty array).
 */
module Templates {
  import opened Wrappers

  /** A rows x cols matrix of reals. */
  datatype Array2 = Array2(rows: nat, cols: nat, data: seq<seq<real>>) {
    predicate Valid() {
      |data| == rows && forall i :: 0 <= i < rows ==> |data[i]| == cols
    }
  }

  /** An n0 x n1 x n2 tensor of reals; for templates the axes are
      (template, time sample, channel). */
  datatype Array3 = Array3(n0: nat, n1: nat, n2: nat, data: seq<seq<seq<real>>>) {
    predicate Valid() {
      && |data| == n0
      && (forall k :: 0 <= k < n0 ==> |data[k]| == n1)
      && (forall k, t :: 0 <= k < n0 && 0 <= t < n1 ==> |data[k][t]| == n2)
    }
  }

  predicate SameShape(x: Array3, y: Array3) {
    x.n0 == y.n0 && x.n1 == y.n1 && x.n2 == y.n2
  }

  // ------------------------------------------------------- padding strip

  /** `templates[:, p:, :]`: every template loses its first `p` time samples
      (all of them when `p` exceeds the time length); a negative `p` counts
      from the end, so the last `-p` samples (all when `-p` exceeds the
      length) are kept, as in numpy. */
  function StripPadding(raw: Array3, p: int): (r: Array3)
    requires raw.Valid()
    ensures r.Valid()
    ensures r.n0 == raw.n0 && r.n2 == raw.n2
    ensures p >= 0 ==> r.n1 == if p <= raw.n1 then raw.n1 - p else 0
    ensures p < 0 ==> r.n1 == if -p <= raw.n1 then -p else raw.n1
    ensures p >= 0 ==> forall k, t, c :: 0 <= k < r.n0 && 0 <= t < r.n1 && 0 <= c < r.n2 ==>
      r.data[k][t][c] == raw.data[k][t + p][c]
    ensures forall k, t, c :: 0 <= k < r.n0 && 0 <= t < r.n1 && 0 <= c < r.n2 ==>
      r.data[k][t][c] == raw.data[k][t + (raw.n1 - r.n1)][c]
  {
    var s := SliceStart(raw.n1, p);
    Array3(raw.n0, raw.n1 - s, raw.n2, seq(raw.n0, k requires 0 <= k < raw.n0 => raw.data[k][s..]))
  }

  /** Where the slice `p:` of an axis of length `n` starts, with numpy's
      clamping of out-of-range and negative starts. */
  function SliceStart(n: nat, p: int): (s: nat)
    ensures s <= n
  {
    if p >= 0 then (if p <= n then p else n)
    else if n + p >= 0 then n + p
    else 0
  }

  /** Stripping nothing leaves the tensor unchanged. */
  lemma StripNothing(raw: Array3)
    requires raw.Valid()
    ensures StripPadding(raw, 0) == raw
  {
    var r := StripPadding(raw, 0);
    forall k | 0 <= k < raw.n0
      ensures r.data[k] == raw.data[k]
    {
      assert raw.data[k][0..] == raw.data[k];
    }
  }

  /** Stripping `p` and then `q` samples is stripping `p + q`. */
  lemma StripTwice(raw: Array3, p: nat, q: nat)
    requires raw.Valid()
    ensures StripPadding(StripPadding(raw, p), q) == StripPadding(raw, p + q)
  {
    var once := StripPadding(raw, p);
    var twice := StripPadding(once, q);
    var direct := StripPadding(raw, p + q);
    forall k | 0 <= k < raw.n0
      ensures twice.data[k] == direct.data[k]
    {
      var s1 := if p <= raw.n1 then p else raw.n1;
      var s2 := if q <= once.n1 then q else once.n1;
      var s := if p + q <= raw.n1 then p + q else raw.n1;
      assert s1 + s2 == s;
      assert raw.data[k][s1..][s2..] == raw.data[k][s..];
    }
  }

  // --------------------------------------------------------- unwhitening

  /** The sum over channels c < n of row[c] * w[c][j]. */
  function DotColumn(row: seq<real>, w: Array2, j: nat, n: nat): real
    requires w.Valid() && n <= |row| && n <= w.rows && j < w.cols
  {
    if n == 0 then 0.0 else DotColumn(row, w, j, n - 1) + row[n - 1] * w.data[n - 1][j]
  }

  /** The matrix product `np.dot(a, w)` of a (T x C) slice with a (C x D)
      matrix. */
  function MatMul(a: seq<seq<real>>, w: Array2): (p: seq<seq<real>>)
    requires w.Valid()
    requires forall t :: 0 <= t < |a| ==> |a[t]| == w.rows
    ensures |p| == |a|
    ensures forall t :: 0 <= t < |a| ==> |p[t]| == w.cols
  {
    seq(|a|, t requires 0 <= t < |a| =>
      seq(w.cols, j requires 0 <= j < w.cols => DotColumn(a[t], w, j, w.rows)))
  }

  /** When the loop over templates succeeds: it does not run at all for zero
      templates; otherwise `np.dot` needs as many matrix rows as channels and
      storing the (T x D) product into a (T x C) slice needs D == C, or
      D == 1 (broadcast across channels). */
  predicate Unwhitenable(temps: Array3, w: Array2) {
    temps.n0 == 0 || (w.rows == temps.n2 && (w.cols == temps.n2 || w.cols == 1))
  }

  /** The unwhitened templates: a tensor of the templates' shape whose k-th
      slice is the product of the k-th template slice with `w`. */
  function Unwhiten(temps: Array3, w: Array2): (r: Result<Array3>)
    requires temps.Valid() && w.Valid()
    ensures r.Ok? <==> Unwhitenable(temps, w)
    ensures r.Err? ==> r.error.ValueError?
    ensures r.Ok? ==> r.value.Valid() && SameShape(r.value, temps)
    ensures r.Ok? && w.cols == temps.n2 ==>
      forall k :: 0 <= k < temps.n0 ==> r.value.data[k] == MatMul(temps.data[k], w)
    ensures r.Ok? && w.cols != temps.n2 ==>
      forall k, t, c :: 0 <= k < temps.n0 && 0 <= t < temps.n1 && 0 <= c < temps.n2 ==>
        r.value.data[k][t][c] == MatMul(temps.data[k], w)[t][0]
  {
    if !Unwhitenable(temps, w) then
      Err(ValueError("shapes not aligned"))
    else
      Ok(Array3(temps.n0, temps.n1, temps.n2,
        seq(temps.n0, k requires 0 <= k < temps.n0 =>
          var p := MatMul(temps.data[k], w);
          if w.cols == temps.n2 then p
          else
            seq(temps.n1, t requires 0 <= t < temps.n1 =>
              seq(temps.n2, c requires 0 <= c < temps.n2 => p[t][0])))))
  }

  /** The matrix `w` with every entry multiplied by `factor`. */
  function Scale(w: Array2, factor: real): (r: Array2)
    requires w.Valid()
    ensures r.Valid() && r.rows == w.rows && r.cols == w.cols
  {
    Array2(w.rows, w.cols, seq(w.rows, i requires 0 <= i < w.rows =>
      seq(w.cols, j requires 0 <= j < w.cols => factor * w.data[i][j])))
  }

  lemma {:induction false} DotColumnScale(row: seq<real>, w: Array2, factor: real, j: nat, n: nat)
    requires w.Valid() && n <= |row| && n <= w.rows && j < w.cols
    ensures DotColumn(row, Scale(w, factor), j, n) == factor * DotColumn(row, w, j, n)
    decreases n
  {
    if n > 0 {
      DotColumnScale(row, w, factor, j, n - 1);
      var a, b := row[n - 1], w.data[n - 1][j];
      assert Scale(w, factor).data[n - 1][j] == factor * b;
      assert a * (factor * b) == factor * (a * b);
    }
  }

  /** Unwhitening is linear in the matrix: scaling the matrix by `factor`
      scales every reconstructed entry by `factor`. */
  lemma UnwhitenScale(temps: Array3, w: Array2, factor: real)
    requires temps.Valid() && w.Valid()
    requires Unwhitenable(temps, w)
    ensures Unwhiten(temps, Scale(w, factor)).Ok?
    ensures var r, s := Unwhiten(temps, w).value, Unwhiten(temps, Scale(w, factor)).value;
      forall k, t, c :: 0 <= k < temps.n0 && 0 <= t < temps.n1 && 0 <= c < temps.n2 ==>
        s.data[k][t][c] == factor * r.data[k][t][c]
  {
    forall k, t, c | 0 <= k < temps.n0 && 0 <= t < temps.n1 && 0 <= c < temps.n2 {
      UnwhitenScaleEntry(temps, w, factor, k, t, c);
    }
  }

  lemma UnwhitenScaleEntry(temps: Array3, w: Array2, factor: real, k: nat, t: nat, c: nat)
    requires temps.Valid() && w.Valid()
    requires Unwhitenable(temps, w)
    requires k < temps.n0 && t < temps.n1 && c < temps.n2
    ensures Unwhiten(temps, Scale(w, factor)).Ok?
    ensures Unwhiten(temps, Scale(w, factor)).value.data[k][t][c] == factor * Unwhiten(temps, w).value.data[k][t][c]
  {
    var sw := Scale(w, factor);
    var r, s := Unwhiten(temps, w).value, Unwhiten(temps, sw).value;
    var j := if w.cols == temps.n2 then c else 0;
    assert r.data[k][t][c] == MatMul(temps.data[k], w)[t][j];
    assert s.data[k][t][c] == MatMul(temps.data[k], sw)[t][j];
    DotColumnScale(temps.data[k][t], w, factor, j, w.rows);
  }

  /** The n x n identity matrix. */
  function Identity(n: nat): (r: Array2)
    ensures r.Valid() && r.rows == n && r.cols == n
  {
    Array2(n, n, seq(n, i requires 0 <= i < n => seq(n, j requires 0 <= j < n => if i == j then 1.0 else 0.0)))
  }

  lemma {:induction false} DotColumnIdentity(row: seq<real>, size: nat, j: nat, n: nat)
    requires n <= |row| && n <= size && j < size
    ensures DotColumn(row, Identity(size), j, n) == if j < n then row[j] else 0.0
    decreases n
  {
    if n > 0 {
      DotColumnIdentity(row, size, j, n - 1);
    }
  }

  /** Unwhitening with the identity matrix (data that was never whitened)
      returns the templates unchanged. */
  lemma UnwhitenIdentity(temps: Array3)
    requires temps.Valid()
    ensures Unwhiten(temps, Identity(temps.n2)) == Ok(temps)
  {
    var w := Identity(temps.n2);
    var r := Unwhiten(temps, w).value;
    forall k | 0 <= k < temps.n0
      ensures r.data[k] == temps.data[k]
    {
      forall t | 0 <= t < temps.n1
        ensures r.data[k][t] == temps.data[k][t]
      {
        forall c | 0 <= c < temps.n2
          ensures r.data[k][t][c] == temps.data[k][t][c]
        {
          DotColumnIdentity(temps.data[k][t], temps.n2, c, temps.n2);
        }
      }
    }
    assert r.data == temps.data;
  }
}
