/** The range-index query `find_range`: the ascending indices of a
    one-dimensional array whose elements fall inside, or outside, the closed
    interval [a, b].
 */
module RangeQuery {
  import opened Wrappers

  /** The two options the query accepts. */
  datatype Mode = Within | Outside

  /** Whether value `v` is selected under `mode` for the bounds `a`, `b`:
      `within` keeps a <= v <= b, `outside` keeps v < a or v > b. */
  predicate Selects(mode: Mode, v: real, a: real, b: real) {
    match mode
    case Within => a <= v && v <= b
    case Outside => v < a || v > b
  }

  predicate StrictlyIncreasing(s: seq<nat>) {
    forall i, j :: 0 <= i < j < |s| ==> s[i] < s[j]
  }

  /** The option string as the source compares it; anything other than the
      two recognised spellings is a ValueError. */
  function ParseMode(option: string): (r: Result<Mode>)
    ensures r.Ok? <==> option == "within" || option == "outside"
    ensures r.Ok? ==> (r.value == Within <==> option == "within")
    ensures r.Err? ==> r.error.ValueError?
  {
    if option == "within" then Ok(Within)
    else if option == "outside" then Ok(Outside)
    else Err(ValueError("unrecognized option paramter: " + option))
  }

  /** The indices of `x` selected under `mode`, in ascending order (what
      `np.where(mask)[0]` returns for a one-dimensional mask). */
  function Where(x: seq<real>, mode: Mode, a: real, b: real): (r: seq<nat>)
    ensures |r| <= |x|
    decreases |x|
  {
    if |x| == 0 then []
    else
      var last := |x| - 1;
      Where(x[..last], mode, a, b) + (if Selects(mode, x[last], a, b) then [last] else [])
  }

  /** `Where` returns, in strictly ascending order, exactly the in-range
      indices whose element the mode selects. */
  lemma WhereSelects(x: seq<real>, mode: Mode, a: real, b: real)
    ensures var r := Where(x, mode, a, b);
      && StrictlyIncreasing(r)
      && (forall j :: 0 <= j < |r| ==> r[j] < |x|)
      && (forall i :: 0 <= i < |x| ==> (i in r <==> Selects(mode, x[i], a, b)))
  {
    WhereAscending(x, mode, a, b);
    WhereMembers(x, mode, a, b);
  }

  lemma {:induction false} WhereAscending(x: seq<real>, mode: Mode, a: real, b: real)
    ensures var r := Where(x, mode, a, b);
      StrictlyIncreasing(r) && forall j :: 0 <= j < |r| ==> r[j] < |x|
    decreases |x|
  {
    if |x| > 0 {
      WhereAscending(x[..|x| - 1], mode, a, b);
    }
  }

  lemma {:induction false} WhereMembers(x: seq<real>, mode: Mode, a: real, b: real)
    ensures var r := Where(x, mode, a, b);
      forall i :: 0 <= i < |x| ==> (i in r <==> Selects(mode, x[i], a, b))
    decreases |x|
  {
    if |x| > 0 {
      var last := |x| - 1;
      var prefix := x[..last];
      WhereMembers(prefix, mode, a, b);
      WhereAscending(prefix, mode, a, b);
      assert forall i :: 0 <= i < last ==> prefix[i] == x[i];
    }
  }

  /** `find_range(x, a, b, option)`. */
  function FindRange(x: seq<real>, a: real, b: real, option: string): (r: Result<seq<nat>>)
    ensures r.Err? <==> option != "within" && option != "outside"
    ensures r.Err? ==> r.error == ValueError("unrecognized option paramter: " + option)
    ensures r.Ok? ==> StrictlyIncreasing(r.value)
    ensures r.Ok? ==> forall j :: 0 <= j < |r.value| ==> r.value[j] < |x|
    ensures option == "within" ==>
      forall i :: 0 <= i < |x| ==> (i in r.value <==> a <= x[i] <= b)
    ensures option == "outside" ==>
      forall i :: 0 <= i < |x| ==> (i in r.value <==> x[i] < a || x[i] > b)
  {
    var mode :- ParseMode(option);
    WhereSelects(x, mode, a, b);
    Ok(Where(x, mode, a, b))
  }

  /** Every index of `x` is returned by exactly one of the two options. */
  lemma WithinOutsidePartition(x: seq<real>, a: real, b: real)
    ensures FindRange(x, a, b, "within").Ok? && FindRange(x, a, b, "outside").Ok?
    ensures var w := FindRange(x, a, b, "within").value;
            var o := FindRange(x, a, b, "outside").value;
            (forall i :: 0 <= i < |x| ==> (i in w <==> i !in o))
            && |w| + |o| == |x|
  {
    WhereSelects(x, Within, a, b);
    WhereSelects(x, Outside, a, b);
    WhereCounts(x, a, b);
  }

  /** The two selections have complementary sizes. */
  lemma {:induction false} WhereCounts(x: seq<real>, a: real, b: real)
    ensures |Where(x, Within, a, b)| + |Where(x, Outside, a, b)| == |x|
    decreases |x|
  {
    if |x| > 0 {
      var last := |x| - 1;
      WhereCounts(x[..last], a, b);
      WhereLength(x, Within, a, b);
      WhereLength(x, Outside, a, b);
      SelectsExactlyOne(x[last], a, b);
    }
  }

  /** Each value is selected by exactly one of the two modes. */
  lemma SelectsExactlyOne(v: real, a: real, b: real)
    ensures Selects(Within, v, a, b) != Selects(Outside, v, a, b)
  {
  }

  /** Extending the array by one element adds one index exactly when that
      element is selected. */
  lemma WhereLength(x: seq<real>, mode: Mode, a: real, b: real)
    requires |x| > 0
    ensures |Where(x, mode, a, b)|
      == |Where(x[..|x| - 1], mode, a, b)| + (if Selects(mode, x[|x| - 1], a, b) then 1 else 0)
  {
  }
}
