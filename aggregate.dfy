/**
  The reduction of one group's contributions to a single value
  (ChartBuilder.jsx, lines 23-32). A contribution is the parsed number of a
  row, or `None` when the row's value did not parse.
*/
module Aggregate {
  import opened JsValues

  /** `arr.filter(v => v !== null)`: the parsed numbers, in order. */
  function Nums(arr: seq<Option<real>>): (nums: seq<real>)
    ensures |nums| <= |arr|
    ensures forall x :: x in nums <==> Some(x) in arr
  {
    if arr == [] then []
    else
      var init := Nums(arr[..|arr| - 1]);
      assert arr == arr[..|arr| - 1] + [arr[|arr| - 1]];
      match arr[|arr| - 1]
      case None => init
      case Some(x) => init + [x]
  }

  /** `nums.reduce((a, b) => a + b, 0)`. */
  function Sum(xs: seq<real>): real {
    if xs == [] then 0.0 else Sum(xs[..|xs| - 1]) + xs[|xs| - 1]
  }

  /** `Math.min(...xs)` on a non-empty list. */
  function Min(xs: seq<real>): (m: real)
    requires xs != []
    ensures m in xs && forall x :: x in xs ==> m <= x
  {
    if |xs| == 1 then xs[0]
    else
      var rest := Min(xs[1..]);
      assert xs == [xs[0]] + xs[1..];
      if xs[0] <= rest then xs[0] else rest
  }

  /** `Math.max(...xs)` on a non-empty list. */
  function Max(xs: seq<real>): (m: real)
    requires xs != []
    ensures m in xs && forall x :: x in xs ==> x <= m
  {
    if |xs| == 1 then xs[0]
    else
      var rest := Max(xs[1..]);
      assert xs == [xs[0]] + xs[1..];
      if xs[0] >= rest then xs[0] else rest
  }

  /** `nums.length ? nums.reduce((a, b) => a + b, 0) / nums.length : 0`. */
  function Mean(nums: seq<real>): real {
    if |nums| > 0 then Sum(nums) / |nums| as real else 0.0
  }

  /** `nums.length ? Math.min(...nums) : 0`. */
  function MinOrZero(nums: seq<real>): real {
    if |nums| > 0 then Min(nums) else 0.0
  }

  /** `nums.length ? Math.max(...nums) : 0`. */
  function MaxOrZero(nums: seq<real>): real {
    if |nums| > 0 then Max(nums) else 0.0
  }

  /** The five reductions of `computeSeries`. */
  datatype Agg = SumOf | AvgOf | CountOf | MinOf | MaxOf

  /** The case of `computeSeries`'s `switch (agg)` an aggregate name selects:
      `default` makes every other name count. */
  function AggregateNamed(agg: string): Agg {
    if agg == "sum" then SumOf
    else if agg == "avg" then AvgOf
    else if agg == "count" then CountOf
    else if agg == "min" then MinOf
    else if agg == "max" then MaxOf
    else CountOf
  }

  /** The names `computeSeries`'s `switch` has a case for. */
  predicate IsKnownAggregate(agg: string) {
    agg == "sum" || agg == "avg" || agg == "count" || agg == "min" || agg == "max"
  }

  /** The value one group reduces to. */
  function Reduce(arr: seq<Option<real>>, agg: Agg): real {
    match agg
    case SumOf => Sum(Nums(arr))
    case AvgOf => Mean(Nums(arr))
    case CountOf => |arr| as real
    case MinOf => MinOrZero(Nums(arr))
    case MaxOf => MaxOrZero(Nums(arr))
  }

  // ---------------------------------------------------------------------
  // Properties

  lemma {:induction false} NumsOfUnparsed(arr: seq<Option<real>>)
    requires forall i :: 0 <= i < |arr| ==> arr[i].None?
    ensures Nums(arr) == []
  {
    if arr != [] {
      NumsOfUnparsed(arr[..|arr| - 1]);
    }
  }

  /** sum adds the parsed numbers only: rows that did not parse are left out,
      so a group without parsed numbers sums to 0. */
  lemma SumSkipsUnparsed(arr: seq<Option<real>>, i: nat)
    requires i < |arr| && arr[i].None?
    ensures Reduce(arr, SumOf) == Reduce(arr[..i] + arr[i + 1..], SumOf)
  {
    NumsDropUnparsed(arr, i);
  }

  lemma {:induction false} NumsDropUnparsed(arr: seq<Option<real>>, i: nat)
    requires i < |arr| && arr[i].None?
    ensures Nums(arr) == Nums(arr[..i] + arr[i + 1..])
  {
    var rest := arr[..i] + arr[i + 1..];
    if i == |arr| - 1 {
      assert rest == arr[..|arr| - 1];
    } else {
      var init, last := arr[..|arr| - 1], arr[|arr| - 1];
      NumsDropUnparsed(init, i);
      assert rest == (init[..i] + init[i + 1..]) + [last];
      assert arr == init + [last];
      NumsSnoc(init[..i] + init[i + 1..], last);
      NumsSnoc(init, last);
    }
  }

  /** The filter keeps every parsed number as often as it occurs: this is
      what sum and avg depend on. */
  lemma {:induction false} NumsKeepMultiplicity(arr: seq<Option<real>>)
    ensures forall x :: multiset(Nums(arr))[x] == multiset(arr)[Some(x)]
  {
    if arr != [] {
      var init, last := arr[..|arr| - 1], arr[|arr| - 1];
      assert arr == init + [last];
      NumsKeepMultiplicity(init);
      NumsSnoc(init, last);
    }
  }

  lemma SumSnoc(xs: seq<real>, x: real)
    ensures Sum(xs + [x]) == Sum(xs) + x
  {
    assert (xs + [x])[..|xs|] == xs;
  }

  /** One more contribution adds its number, if it has one, at the end. */
  lemma NumsSnoc(arr: seq<Option<real>>, c: Option<real>)
    ensures Nums(arr + [c]) == Nums(arr) + (if c.Some? then [c.value] else [])
  {
    assert (arr + [c])[..|arr|] == arr;
  }

  lemma SumOfUnparsed(arr: seq<Option<real>>)
    requires forall i :: 0 <= i < |arr| ==> arr[i].None?
    ensures Reduce(arr, SumOf) == 0.0
  {
    NumsOfUnparsed(arr);
  }

  /** With every contribution the constant 1 (no value field), sum equals
      count and avg is 1 (0 for an empty group). */
  lemma SumOfOnesIsCount(arr: seq<Option<real>>)
    requires forall i :: 0 <= i < |arr| ==> arr[i] == Some(1.0)
    ensures Reduce(arr, SumOf) == Reduce(arr, CountOf)
    ensures Reduce(arr, AvgOf) == if arr == [] then 0.0 else 1.0
  {
    OnesSum(arr);
    if arr != [] {
      DivSelf(|arr| as real);
    }
  }

  lemma DivSelf(n: real)
    requires n > 0.0
    ensures n / n == 1.0
  {
  }

  lemma {:induction false} OnesSum(arr: seq<Option<real>>)
    requires forall i :: 0 <= i < |arr| ==> arr[i] == Some(1.0)
    ensures |Nums(arr)| == |arr| && Sum(Nums(arr)) == |arr| as real
  {
    if arr != [] {
      var init := arr[..|arr| - 1];
      OnesSum(init);
      assert Nums(arr) == Nums(init) + [1.0];
      assert (Nums(init) + [1.0])[..|Nums(init) + [1.0]| - 1] == Nums(init);
    }
  }

  /** avg, min and max fill a group without parsed numbers with 0. */
  lemma ZeroFill(arr: seq<Option<real>>, agg: Agg)
    requires agg == AvgOf || agg == MinOf || agg == MaxOf
    requires forall i :: 0 <= i < |arr| ==> arr[i].None?
    ensures Reduce(arr, agg) == 0.0
  {
    NumsOfUnparsed(arr);
  }

  /** With some parsed number, min and max are parsed numbers of the group
      and bracket every parsed number. */
  lemma MinMaxBracket(arr: seq<Option<real>>, i: nat)
    requires i < |arr| && arr[i].Some?
    ensures exists j :: 0 <= j < |arr| && arr[j] == Some(Reduce(arr, MinOf))
    ensures exists j :: 0 <= j < |arr| && arr[j] == Some(Reduce(arr, MaxOf))
    ensures Reduce(arr, MinOf) <= arr[i].value <= Reduce(arr, MaxOf)
  {
    assert arr[i].value in Nums(arr);
  }

  /** The mean of the parsed numbers lies between their minimum and maximum. */
  lemma AvgBetweenMinAndMax(arr: seq<Option<real>>)
    ensures Reduce(arr, MinOf) <= Reduce(arr, AvgOf) <= Reduce(arr, MaxOf)
  {
    MeanBetweenMinAndMax(Nums(arr));
  }

  lemma MeanBetweenMinAndMax(nums: seq<real>)
    ensures MinOrZero(nums) <= Mean(nums) <= MaxOrZero(nums)
  {
    if nums != [] {
      SumBounds(nums, Min(nums), Max(nums));
      MeanBetween(Sum(nums), |nums| as real, Min(nums), Max(nums));
    }
  }

  /** Dividing bounds on a sum by the (positive) number of terms. */
  lemma MeanBetween(s: real, n: real, lo: real, hi: real)
    requires n > 0.0 && lo * n <= s <= hi * n
    ensures lo <= s / n <= hi
  {
    var q := s / n;
    assert q * n == s;
    CancelFactor(lo, q, n);
    CancelFactor(q, hi, n);
  }

  lemma CancelFactor(a: real, b: real, n: real)
    requires n > 0.0 && a * n <= b * n
    ensures a <= b
  {
  }

  lemma {:induction false} SumBounds(xs: seq<real>, lo: real, hi: real)
    requires forall x :: x in xs ==> lo <= x <= hi
    ensures lo * |xs| as real <= Sum(xs) <= hi * |xs| as real
  {
    if xs != [] {
      var init, last := xs[..|xs| - 1], xs[|xs| - 1];
      assert forall x :: x in init ==> x in xs;
      assert last in xs;
      SumBounds(init, lo, hi);
      var n := |init| as real;
      assert |xs| as real == n + 1.0;
      assert lo * (n + 1.0) == lo * n + lo && hi * (n + 1.0) == hi * n + hi;
    }
  }
}
