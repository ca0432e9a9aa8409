/**
 * `operations`: the minimum, maximum and average of one bucket of signal
 * strengths, with the safe-integer sentinels the loop starts from.
 */
module Stats {
  import opened Wrappers
  import opened JsNumber

  /** The summary served for one bucket; `avg` is `None` where JavaScript computes 0/0 (NaN). */
  datatype Summary = Summary(min: int, max: int, avg: Option<real>)

  function Sum(s: seq<int>): (r: int)
    decreases |s|
  {
    if s == [] then 0 else Sum(s[..|s| - 1]) + s[|s| - 1]
  }

  /** The smallest element of `s`. */
  function SeqMin(s: seq<int>): (m: int)
    requires s != []
    ensures m in s && forall i :: 0 <= i < |s| ==> m <= s[i]
    decreases |s|
  {
    if |s| == 1 then s[0]
    else
      var init := s[..|s| - 1];
      var m := SeqMin(init);
      assert forall i :: 0 <= i < |init| ==> init[i] == s[i];
      if s[|s| - 1] < m then s[|s| - 1] else m
  }

  /** The largest element of `s`. */
  function SeqMax(s: seq<int>): (m: int)
    requires s != []
    ensures m in s && forall i :: 0 <= i < |s| ==> s[i] <= m
    decreases |s|
  {
    if |s| == 1 then s[0]
    else
      var init := s[..|s| - 1];
      var m := SeqMax(init);
      assert forall i :: 0 <= i < |init| ==> init[i] == s[i];
      if s[|s| - 1] > m then s[|s| - 1] else m
  }

  /**
   * What `operations` returns. The running minimum starts at
   * MAX_SAFE_INTEGER and is reset to 1 when it still equals that value at
   * the end, so an empty list, and a list whose minimum is at least
   * MAX_SAFE_INTEGER, report a minimum of 1; the maximum mirrors this with
   * MIN_SAFE_INTEGER.
   */
  function Summarise(s: seq<int>): Summary {
    Summary(
      if s == [] || SeqMin(s) >= MaxSafeInteger then 1 else SeqMin(s),
      if s == [] || SeqMax(s) <= MinSafeInteger then 1 else SeqMax(s),
      if s == [] then None else Some(Sum(s) as real / |s| as real))
  }

  /** The loop of `operations`: one pass that keeps the sum, the maximum and the minimum. */
  method Operations(arr: seq<int>) returns (r: Summary)
    ensures r == Summarise(arr)
  {
    var sum, max, min := 0, MinSafeInteger, MaxSafeInteger;
    var i := 0;
    while i < |arr|
      invariant 0 <= i <= |arr|
      invariant sum == Sum(arr[..i])
      invariant i == 0 ==> max == MinSafeInteger && min == MaxSafeInteger
      invariant i > 0 ==> max == (if SeqMax(arr[..i]) > MinSafeInteger then SeqMax(arr[..i]) else MinSafeInteger)
      invariant i > 0 ==> min == (if SeqMin(arr[..i]) < MaxSafeInteger then SeqMin(arr[..i]) else MaxSafeInteger)
    {
      var s := arr[i];
      assert arr[..i + 1][..i] == arr[..i];
      sum := sum + s;
      if s > max {
        max := s;
      }
      if s < min {
        min := s;
      }
      i := i + 1;
    }
    assert arr[..|arr|] == arr;
    if min == MaxSafeInteger {
      min := 1;
    }
    if max == MinSafeInteger {
      max := 1;
    }
    var avg := if |arr| == 0 then None else Some(sum as real / |arr| as real);
    r := Summary(min, max, avg);
  }

  /** Elements bounded by `lo` and `hi` give a sum between length times `lo` and length times `hi`. */
  lemma {:induction false} SumBounds(s: seq<int>, lo: int, hi: int)
    requires forall i :: 0 <= i < |s| ==> lo <= s[i] <= hi
    ensures |s| * lo <= Sum(s) <= |s| * hi
    decreases |s|
  {
    if s != [] {
      var init := s[..|s| - 1];
      assert forall i :: 0 <= i < |init| ==> init[i] == s[i];
      SumBounds(init, lo, hi);
      assert Sum(s) == Sum(init) + s[|s| - 1];
      assert |s| * lo == |init| * lo + lo && |s| * hi == |init| * hi + hi;
    }
  }

  /** Every element lies strictly between the safe-integer sentinels, as every realistic dBm reading does. */
  predicate WithinSafeRange(s: seq<int>) {
    forall i :: 0 <= i < |s| ==> MinSafeInteger < s[i] < MaxSafeInteger
  }

  /**
   * For a non-empty list inside the safe range, `operations` reports its true
   * minimum and maximum (both elements of the list, bounding every element)
   * and its mean, which lies between them.
   */
  lemma SummariseNonEmpty(s: seq<int>)
    requires s != [] && WithinSafeRange(s)
    ensures var r := Summarise(s);
      && r.min in s && r.max in s
      && (forall i :: 0 <= i < |s| ==> r.min <= s[i] <= r.max)
      && r.avg == Some(Sum(s) as real / |s| as real)
      && r.min as real <= r.avg.value <= r.max as real
  {
    var lo, hi := SeqMin(s), SeqMax(s);
    assert MinSafeInteger < lo < MaxSafeInteger && MinSafeInteger < hi < MaxSafeInteger by {
      var j :| 0 <= j < |s| && s[j] == lo;
      var k :| 0 <= k < |s| && s[k] == hi;
    }
    assert Summarise(s) == Summary(lo, hi, Some(Sum(s) as real / |s| as real));
    SumBounds(s, lo, hi);
    MeanBounds(Sum(s), |s|, lo, hi);
  }

  /** Integer bounds on a sum carry over to the mean. */
  lemma MeanBounds(sum: int, n: nat, lo: int, hi: int)
    requires n > 0 && n * lo <= sum <= n * hi
    ensures lo as real <= sum as real / n as real <= hi as real
  {
  }

  /** An empty bucket reports 1 for both minimum and maximum and no average. */
  lemma SummariseEmpty()
    ensures Summarise([]) == Summary(1, 1, None)
  {
  }

  /**
   * The sentinel test cannot tell an empty list from a list whose minimum is
   * at least MAX_SAFE_INTEGER: every such list reports a minimum of 1, and a
   * reported minimum of 1 means one of these cases or a true minimum of 1.
   * The maximum mirrors this with MIN_SAFE_INTEGER.
   */
  lemma SentinelCollision(s: seq<int>)
    ensures s != [] && SeqMin(s) >= MaxSafeInteger ==> Summarise(s).min == 1
    ensures s != [] && SeqMax(s) <= MinSafeInteger ==> Summarise(s).max == 1
    ensures Summarise(s).min == 1 <==> s == [] || SeqMin(s) >= MaxSafeInteger || SeqMin(s) == 1
    ensures Summarise(s).max == 1 <==> s == [] || SeqMax(s) <= MinSafeInteger || SeqMax(s) == 1
    ensures Summarise([MaxSafeInteger]).min == 1 && Summarise([MinSafeInteger]).max == 1
  {
  }
}
