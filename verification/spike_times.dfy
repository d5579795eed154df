/** Per-spike arrays as the loader normalises them: collapsing an N x 1
    column to a flat sequence (`np.squeeze`), and converting spike times from
    sample counts to seconds.
 */
module SpikeTimes {

  /** A per-spike array as stored: flat, or as an N x 1 column. */
  datatype Samples<T> = Flat(values: seq<T>) | Column(rows: seq<seq<T>>) {
    predicate Valid() {
      Column? ==> forall i :: 0 <= i < |rows| ==> |rows[i]| == 1
    }

    function Length(): nat {
      match this
      case Flat(v) => |v|
      case Column(rs) => |rs|
    }
  }

  /** `np.squeeze`: the singleton column axis is dropped, so the result is
      the flat sequence whose i-th element is the only entry of row i. */
  function Squeeze<T>(a: Samples<T>): (r: seq<T>)
    requires a.Valid()
    ensures |r| == a.Length()
    ensures a.Flat? ==> r == a.values
    ensures a.Column? ==> forall i :: 0 <= i < |r| ==> a.rows[i] == [r[i]]
  {
    match a
    case Flat(v) => v
    case Column(rs) => seq(|rs|, i requires 0 <= i < |rs| => rs[i][0])
  }

  /** The N x 1 column holding `v`, one value per row. */
  function AsColumn<T>(v: seq<T>): (a: Samples<T>)
    ensures a.Valid() && a.Column? && a.Length() == |v|
  {
    Column(seq(|v|, i requires 0 <= i < |v| => [v[i]]))
  }

  /** Squeezing undoes the column layout: a sequence stored as an N x 1
      column squeezes back to itself, and so does a flat one. */
  lemma SqueezeOfColumn<T>(v: seq<T>)
    ensures Squeeze(AsColumn(v)) == v
    ensures Squeeze(Flat(v)) == v
  {
    var r := Squeeze(AsColumn(v));
    forall i | 0 <= i < |v|
      ensures r[i] == v[i]
    {
      assert AsColumn(v).rows[i] == [v[i]] == [r[i]];
    }
  }

  /** Integer sample counts read as reals, as numpy promotes them when they
      are divided by a float. */
  function AsReals(xs: seq<int>): (r: seq<real>)
    ensures |r| == |xs|
    ensures forall i :: 0 <= i < |xs| ==> r[i] == xs[i] as real
  {
    seq(|xs|, i requires 0 <= i < |xs| => xs[i] as real)
  }

  /** Spike times in seconds when `convert` is set (each sample count divided
      by the sampling rate), unchanged otherwise. Only the conversion needs a
      nonzero rate. */
  function ToSeconds(times: seq<real>, sampleRate: real, convert: bool): (r: seq<real>)
    requires convert ==> sampleRate != 0.0
    ensures |r| == |times|
    ensures !convert ==> r == times
    ensures convert ==> forall i :: 0 <= i < |r| ==> r[i] * sampleRate == times[i]
  {
    if convert then seq(|times|, i requires 0 <= i < |times| => times[i] / sampleRate) else times
  }

  /** Seconds back to sample counts. */
  function ToSamples(seconds: seq<real>, sampleRate: real): (r: seq<real>)
    ensures |r| == |seconds|
  {
    seq(|seconds|, i requires 0 <= i < |seconds| => seconds[i] * sampleRate)
  }

  /** Converting to seconds and back recovers the sample counts. */
  lemma ToSecondsRoundTrip(times: seq<real>, sampleRate: real)
    requires sampleRate != 0.0
    ensures ToSamples(ToSeconds(times, sampleRate, true), sampleRate) == times
  {
    var r := ToSamples(ToSeconds(times, sampleRate, true), sampleRate);
    assert forall i :: 0 <= i < |times| ==> r[i] == times[i];
  }

  /** Conversion keeps the order of spike times: a spike is no later than
      another in seconds exactly when it is no later in samples. */
  lemma ToSecondsPreservesOrder(times: seq<real>, sampleRate: real, i: nat, j: nat)
    requires sampleRate > 0.0
    requires i < |times| && j < |times|
    ensures var r := ToSeconds(times, sampleRate, true);
      r[i] <= r[j] <==> times[i] <= times[j]
  {
    var r := ToSeconds(times, sampleRate, true);
    assert r[i] * sampleRate == times[i] && r[j] * sampleRate == times[j];
    if r[i] <= r[j] {
      assert r[i] * sampleRate <= r[j] * sampleRate;
    } else {
      assert r[j] * sampleRate < r[i] * sampleRate;
    }
  }
}
