/** The field statistics of the dataset survey (`test.py`): the lengths of a
    text field, in characters or in words, and the values of a numeric
    field, optionally restricted to items where another field has a given
    value; each summarised by minimum, maximum, mean and median. */
module FieldStats {
  import opened Common
  import opened Text
  import Sorting

  /** A JSON field value, as far as the survey looks at it. */
  datatype Value = Str(s: string) | Num(x: real) | Null

  /** Python truthiness: the empty string, zero and `None` are false. */
  predicate Truthy(v: Value)
  {
    match v
    case Str(s) => s != []
    case Num(x) => x != 0.0
    case Null => false
  }

  /** One item of the data file, keyed by field name. */
  type Item = map<string, Value>

  datatype CountType = Characters | WordCount | OtherMode

  // ---------------------------------------------------------------------
  // Lengths of a text field

  /** The item passes the presence test of `analyze_field_lengths`. */
  predicate Present(item: Item, field: string)
  {
    field in item && Truthy(item[field])
  }

  /** The item's value reaches `len` or `split`, which fail on a number. */
  predicate Fails(item: Item, field: string, mode: CountType)
  {
    Present(item, field) && mode != OtherMode && !item[field].Str?
  }

  function LengthOf(s: string, mode: CountType): real
  {
    if mode == Characters then |s| as real else |Words(s)| as real
  }

  /** `len` is the length the item's value contributes. */
  predicate LengthFrom(item: Item, field: string, mode: CountType, len: real)
  {
    Present(item, field) && item[field].Str? && len == LengthOf(item[field].s, mode)
  }

  /** The lengths collected by `analyze_field_lengths`, in item order;
      `None` when a present value is a number, which stops the script. */
  function Lengths(data: seq<Item>, field: string, mode: CountType): (r: Option<seq<real>>)
    ensures r.None? <==> exists i :: 0 <= i < |data| && Fails(data[i], field, mode)
    ensures r.Some? ==> |r.value| <= |data|
    ensures r.Some? && mode == OtherMode ==> r.value == []
    ensures r.Some? ==> forall k :: 0 <= k < |r.value| ==>
              exists i :: 0 <= i < |data| && LengthFrom(data[i], field, mode, r.value[k])
    ensures r.Some? && mode == Characters ==> forall k :: 0 <= k < |r.value| ==> r.value[k] >= 1.0
  {
    if data == [] then Some([])
    else
      var item := data[0];
      var rest := Lengths(data[1..], field, mode);
      assert forall i :: 1 <= i < |data| ==> data[i] == data[1..][i - 1];
      if Fails(item, field, mode) then None
      else if rest.None? then None
      else if Present(item, field) && mode != OtherMode then
        Some([LengthOf(item[field].s, mode)] + rest.value)
      else
        assert forall k :: 0 <= k < |rest.value| ==>
          exists i :: 0 <= i < |data| && LengthFrom(data[i], field, mode, rest.value[k]) by {
          forall k | 0 <= k < |rest.value|
            ensures exists i :: 0 <= i < |data| && LengthFrom(data[i], field, mode, rest.value[k]) {
            var j :| 0 <= j < |data[1..]| && LengthFrom(data[1..][j], field, mode, rest.value[k]);
            assert data[j + 1] == data[1..][j];
          }
        }
        rest
  }

  /** An item holding a non-empty string puts its length in front. */
  lemma LengthsOfString(item: Item, tail: seq<Item>, field: string, mode: CountType)
    requires mode != OtherMode
    requires field in item && item[field].Str? && item[field].s != []
    requires Lengths(tail, field, mode).Some?
    ensures Lengths([item] + tail, field, mode)
              == Some([LengthOf(item[field].s, mode)] + Lengths(tail, field, mode).value)
  {
    assert ([item] + tail)[0] == item && ([item] + tail)[1..] == tail;
  }

  /** When every item holds a non-empty string, there is one length per
      item, in order. */
  lemma {:induction false} LengthsOfStrings(data: seq<Item>, field: string, mode: CountType)
    requires mode != OtherMode
    requires forall i :: 0 <= i < |data| ==> field in data[i] && data[i][field].Str? && data[i][field].s != []
    ensures Lengths(data, field, mode).Some?
    ensures |Lengths(data, field, mode).value| == |data|
    ensures forall i :: 0 <= i < |data| ==>
              Lengths(data, field, mode).value[i] == LengthOf(data[i][field].s, mode)
  {
    if data != [] {
      var tail: seq<Item> := data[1..];
      forall i | 0 <= i < |tail|
        ensures field in tail[i] && tail[i][field].Str? && tail[i][field].s != []
      {
        assert tail[i] == data[i + 1];
      }
      LengthsOfStrings(tail, field, mode);
      var first := LengthOf(data[0][field].s, mode);
      var rest := Lengths(tail, field, mode).value;
      assert Lengths(data, field, mode) == Some([first] + rest) by {
        LengthsOfString(data[0], tail, field, mode);
        assert data == [data[0]] + tail;
      }
      ConsPointwise(data, field, mode, rest);
    }
  }

  /** The length of the first item followed by the lengths of the others
      is the length of each item in turn. */
  lemma ConsPointwise(data: seq<Item>, field: string, mode: CountType, rest: seq<real>)
    requires data != []
    requires forall i :: 0 <= i < |data| ==> field in data[i] && data[i][field].Str?
    requires |rest| == |data| - 1
    requires forall i :: 0 <= i < |rest| ==> rest[i] == LengthOf(data[1..][i][field].s, mode)
    ensures forall i :: 0 <= i < |data| ==>
              ([LengthOf(data[0][field].s, mode)] + rest)[i] == LengthOf(data[i][field].s, mode)
  {
    forall i | 0 < i < |data|
      ensures ([LengthOf(data[0][field].s, mode)] + rest)[i] == LengthOf(data[i][field].s, mode)
    {
      assert data[1..][i - 1] == data[i];
    }
  }

  /** Items without the field, or with an empty value, contribute nothing. */
  lemma {:induction false} AbsentSkipped(data: seq<Item>, item: Item, field: string, mode: CountType)
    requires !Present(item, field)
    ensures Lengths([item] + data, field, mode) == Lengths(data, field, mode)
  {
    assert ([item] + data)[1..] == data;
  }

  // ---------------------------------------------------------------------
  // Summary statistics

  function Min(v: seq<real>): (m: real)
    requires v != []
    ensures m in v
    ensures forall i :: 0 <= i < |v| ==> m <= v[i]
  {
    if |v| == 1 then v[0]
    else
      var p := Min(v[..|v| - 1]);
      assert forall i :: 0 <= i < |v| - 1 ==> v[i] == v[..|v| - 1][i];
      if v[|v| - 1] < p then v[|v| - 1] else p
  }

  function Max(v: seq<real>): (m: real)
    requires v != []
    ensures m in v
    ensures forall i :: 0 <= i < |v| ==> v[i] <= m
  {
    if |v| == 1 then v[0]
    else
      var p := Max(v[..|v| - 1]);
      assert forall i :: 0 <= i < |v| - 1 ==> v[i] == v[..|v| - 1][i];
      if v[|v| - 1] > p then v[|v| - 1] else p
  }

  function Mean(v: seq<real>): real
    requires v != []
  {
    Sum(v) / |v| as real
  }

  function Identity(x: real): real { x }

  /** `np.median`: the middle of the sorted values, or the average of the
      two middle ones. Sorting descending puts the same pair in the middle. */
  function Median(v: seq<real>): real
    requires v != []
  {
    var d := Sorting.SortDesc(v, Identity);
    assert |d| == |multiset(d)| == |multiset(v)| == |v|;
    var n := |d|;
    if n % 2 == 1 then d[n / 2] else (d[n / 2 - 1] + d[n / 2]) / 2.0
  }

  /** A sum of values between `lo` and `hi` lies between `|v|` times each. */
  lemma {:induction false} SumBetween(v: seq<real>, lo: real, hi: real)
    requires forall i :: 0 <= i < |v| ==> lo <= v[i] <= hi
    ensures |v| as real * lo <= Sum(v) <= |v| as real * hi
  {
    if v != [] {
      var init := v[..|v| - 1];
      assert forall i :: 0 <= i < |init| ==> init[i] == v[i];
      SumBetween(init, lo, hi);
      assert |v| as real * lo == |init| as real * lo + lo;
      assert |v| as real * hi == |init| as real * hi + hi;
    }
  }

  /** The mean lies between the minimum and the maximum. */
  lemma MeanBetween(v: seq<real>)
    requires v != []
    ensures Min(v) <= Mean(v) <= Max(v)
  {
    SumBetween(v, Min(v), Max(v));
    QuotientBetween(Sum(v), |v| as real, Min(v), Max(v));
  }

  lemma QuotientBetween(s: real, n: real, lo: real, hi: real)
    requires n > 0.0 && n * lo <= s <= n * hi
    ensures lo <= s / n <= hi
  {
    assert s == (s / n) * n;
  }

  /** Every element of a permutation of `v` lies between `v`'s bounds. */
  lemma PermutationBetween(v: seq<real>, d: seq<real>, k: int)
    requires v != [] && multiset(d) == multiset(v) && 0 <= k < |d|
    ensures Min(v) <= d[k] <= Max(v)
  {
    assert d[k] in multiset(d);
    assert d[k] in multiset(v);
    var i :| 0 <= i < |v| && v[i] == d[k];
  }

  /** The median lies between the minimum and the maximum. */
  lemma MedianBetween(v: seq<real>)
    requires v != []
    ensures Min(v) <= Median(v) <= Max(v)
  {
    var d := Sorting.SortDesc(v, Identity);
    assert |d| == |multiset(d)| == |multiset(v)| == |v|;
    var n := |d|;
    PermutationBetween(v, d, n / 2);
    if n % 2 == 0 {
      PermutationBetween(v, d, n / 2 - 1);
    }
  }

  /** A sequence of one repeated value has that value as every statistic. */
  lemma ConstantStatistics(v: seq<real>, c: real)
    requires v != [] && forall i :: 0 <= i < |v| ==> v[i] == c
    ensures Min(v) == c && Max(v) == c && Mean(v) == c && Median(v) == c
  {
    SumConstant(v, c);
    MeanBetween(v);
    MedianBetween(v);
  }

  /** The summary returned by both analyses. */
  datatype Stats = Stats(
    min: Option<real>, max: Option<real>, mean: Option<real>,
    median: Option<real>, values: seq<real>)

  /** The value `np.median` reads off values sorted in either direction:
      the middle one, or the average of the two middle ones. */
  function Middle(d: seq<real>): real
    requires d != []
  {
    var n := |d|;
    if n % 2 == 1 then d[n / 2] else (d[n / 2 - 1] + d[n / 2]) / 2.0
  }

  /** `x` lies on `m`'s side: at or below it, or at or above it. */
  predicate OnSide(x: real, m: real, below: bool)
  {
    if below then x <= m else x >= m
  }

  /** How many of the values lie on `m`'s side. */
  function CountSide(v: seq<real>, m: real, below: bool): (c: nat)
    ensures c <= |v|
  {
    if v == [] then 0
    else CountSide(v[..|v| - 1], m, below) + (if OnSide(v[|v| - 1], m, below) then 1 else 0)
  }

  lemma {:induction false} CountConcat(a: seq<real>, b: seq<real>, m: real, below: bool)
    ensures CountSide(a + b, m, below) == CountSide(a, m, below) + CountSide(b, m, below)
    decreases |b|
  {
    if b == [] {
      assert a + b == a;
    } else {
      assert (a + b)[..|a + b| - 1] == a + b[..|b| - 1];
      CountConcat(a, b[..|b| - 1], m, below);
    }
  }

  /** Taking the value at `j` out takes its own contribution off the count. */
  lemma CountRemoveAt(b: seq<real>, j: nat, m: real, below: bool)
    requires j < |b|
    ensures CountSide(b, m, below)
            == CountSide(b[..j] + b[j + 1..], m, below) + (if OnSide(b[j], m, below) then 1 else 0)
  {
    var left, right := b[..j], b[j + 1..];
    assert b == left + ([b[j]] + right);
    CountConcat(left, [b[j]] + right, m, below);
    CountConcat([b[j]], right, m, below);
    CountConcat(left, right, m, below);
    assert [b[j]][..0] == [];
  }

  /** Taking the value at `j` out takes one copy of it out of the multiset. */
  lemma MultisetRemoveAt(b: seq<real>, j: nat)
    requires j < |b|
    ensures multiset(b[..j] + b[j + 1..]) == multiset(b) - multiset{b[j]}
  {
    var left, right := b[..j], b[j + 1..];
    assert b == left + [b[j]] + right;
  }

  /** The count depends only on which values there are, not on their order. */
  lemma {:induction false} CountPermutation(a: seq<real>, b: seq<real>, m: real, below: bool)
    requires multiset(a) == multiset(b)
    ensures CountSide(a, m, below) == CountSide(b, m, below)
    decreases |a|
  {
    if a == [] {
      assert |b| == |multiset(b)| == 0;
    } else {
      var x := a[|a| - 1];
      var init := a[..|a| - 1];
      assert a == init + [x];
      assert multiset(init) == multiset(a) - multiset{x};
      assert x in multiset(b);
      var j :| 0 <= j < |b| && b[j] == x;
      MultisetRemoveAt(b, j);
      CountPermutation(init, b[..j] + b[j + 1..], m, below);
      CountRemoveAt(b, j, m, below);
    }
  }

  /** Values on `m`'s side at every index of `[lo, hi)` count at least
      `hi - lo`. */
  lemma {:induction false} CountRange(d: seq<real>, m: real, below: bool, lo: nat, hi: nat)
    requires lo <= hi <= |d|
    requires forall i :: lo <= i < hi ==> OnSide(d[i], m, below)
    ensures CountSide(d, m, below) >= hi - lo
  {
    if lo < hi {
      var init := d[..|d| - 1];
      assert forall i :: 0 <= i < |init| ==> init[i] == d[i];
      if hi == |d| {
        CountRange(init, m, below, lo, hi - 1);
      } else {
        CountRange(init, m, below, lo, hi);
      }
    }
  }

  /** In a non-increasing sequence at least half the values lie at or below
      the middle and at least half at or above it. */
  lemma MiddleHalves(d: seq<real>)
    requires d != [] && forall i, j :: 0 <= i < j < |d| ==> d[i] >= d[j]
    ensures 2 * CountSide(d, Middle(d), true) >= |d|
    ensures 2 * CountSide(d, Middle(d), false) >= |d|
  {
    var n, k, m := |d|, |d| / 2, Middle(d);
    if n % 2 == 1 {
      assert m == d[k] && 2 * (n - k) >= n && 2 * (k + 1) >= n;
      SplitHalves(d, m, k, k + 1);
    } else {
      assert m == (d[k - 1] + d[k]) / 2.0 && 2 * k == n;
      SplitHalves(d, m, k, k);
    }
  }

  /** Values from `lo` on at or below `m` and values before `hi` at or
      above it count at least `|d| - lo` and `hi`. */
  lemma SplitHalves(d: seq<real>, m: real, lo: nat, hi: nat)
    requires lo < |d| && 0 < hi <= |d|
    requires forall i, j :: 0 <= i < j < |d| ==> d[i] >= d[j]
    requires d[lo] <= m <= d[hi - 1]
    ensures CountSide(d, m, true) >= |d| - lo
    ensures CountSide(d, m, false) >= hi
  {
    assert forall i :: lo <= i < |d| ==> d[i] <= d[lo];
    assert forall i :: 0 <= i < hi ==> d[i] >= d[hi - 1];
    CountRange(d, m, true, lo, |d|);
    CountRange(d, m, false, 0, hi);
  }

  /** At least half the values lie at or below the median and at least half
      at or above it. */
  lemma MedianHalves(v: seq<real>)
    requires v != []
    ensures 2 * CountSide(v, Median(v), true) >= |v|
    ensures 2 * CountSide(v, Median(v), false) >= |v|
  {
    var d := Sorting.SortDesc(v, Identity);
    assert |d| == |multiset(d)| == |multiset(v)| == |v|;
    assert Median(v) == Middle(d);
    assert forall i, j :: 0 <= i < j < |d| ==> d[i] >= d[j] by {
      assert Sorting.Descending(d, Identity);
    }
    MiddleHalves(d);
    CountPermutation(d, v, Middle(d), true);
    CountPermutation(d, v, Middle(d), false);
  }

  /** The median is the middle of some non-increasing arrangement of `v`. */
  lemma MedianIsMiddle(v: seq<real>)
    requires v != []
    ensures exists d :: multiset(d) == multiset(v) && Sorting.Descending(d, Identity)
                        && d != [] && Median(v) == Middle(d)
  {
    var d := Sorting.SortDesc(v, Identity);
    assert |d| == |multiset(d)| == |multiset(v)| == |v|;
  }

  /** `m` times the count of the values is their sum. */
  predicate MeanOf(v: seq<real>, m: real)
  {
    m * |v| as real == Sum(v)
  }

  /** The mean times the count is the sum. */
  lemma MeanTimesCount(v: seq<real>)
    requires v != []
    ensures MeanOf(v, Mean(v))
  {
    var n := |v| as real;
    assert Sum(v) / n * n == Sum(v);
  }

  /** What the statistics say about the values `v`: none without values;
      otherwise the minimum and maximum are values bounding all the others,
      the mean times the count is the sum, and the median is the middle of
      the values in order, with at least half of them on each side of it. */
  ghost predicate Summary(v: seq<real>, s: Stats)
  {
    && s.values == v
    && (v == [] ==> s.min.None? && s.max.None? && s.mean.None? && s.median.None?)
    && (v != [] ==>
          && s.min.Some? && s.max.Some? && s.mean.Some? && s.median.Some?
          && s.min.value in v && s.max.value in v
          && (forall i :: 0 <= i < |v| ==> s.min.value <= v[i] <= s.max.value)
          && MeanOf(v, s.mean.value)
          && (exists d :: multiset(d) == multiset(v) && Sorting.Descending(d, Identity)
                          && d != [] && s.median.value == Middle(d))
          && 2 * CountSide(v, s.median.value, true) >= |v|
          && 2 * CountSide(v, s.median.value, false) >= |v|)
  }

  /** The summary of `v`: all `None` with no values. */
  function Describe(v: seq<real>): (r: Stats)
    ensures r.values == v
    ensures v == [] <==> r.min.None?
    ensures v == [] ==> r.max.None? && r.mean.None? && r.median.None?
    ensures v != [] ==> r.max.Some? && r.mean.Some? && r.median.Some?
    ensures v != [] ==> r.min.value in v && r.max.value in v
    ensures v != [] ==> forall i :: 0 <= i < |v| ==> r.min.value <= v[i] <= r.max.value
    ensures Summary(v, r)
  {
    if v == [] then Stats(None, None, None, None, [])
    else
      StatisticsSummarise(v);
      Stats(Some(Min(v)), Some(Max(v)), Some(Mean(v)), Some(Median(v)), v)
  }

  lemma StatisticsSummarise(v: seq<real>)
    requires v != []
    ensures Summary(v, Stats(Some(Min(v)), Some(Max(v)), Some(Mean(v)), Some(Median(v)), v))
  {
    var s := Stats(Some(Min(v)), Some(Max(v)), Some(Mean(v)), Some(Median(v)), v);
    MeanTimesCount(v);
    MedianHalves(v);
    var d := Sorting.SortDesc(v, Identity);
    assert |d| == |multiset(d)| == |multiset(v)| == |v|;
    assert multiset(d) == multiset(v) && Sorting.Descending(d, Identity)
           && d != [] && s.median.value == Middle(d);
    assert s.min.value in v && s.max.value in v;
    assert forall i :: 0 <= i < |v| ==> s.min.value <= v[i] <= s.max.value;
    assert s.mean.value == Mean(v);
    assert 2 * CountSide(v, s.median.value, true) >= |v|;
    assert 2 * CountSide(v, s.median.value, false) >= |v|;
    assert Summary(v, s);
  }

  /** The four statistics come in order: min, then mean and median, then max. */
  lemma DescribeOrdered(v: seq<real>)
    requires v != []
    ensures var r := Describe(v);
            && r.min.value <= r.mean.value <= r.max.value
            && r.min.value <= r.median.value <= r.max.value
  {
    MeanBetween(v);
    MedianBetween(v);
  }

  /** `analyze_field_lengths`; `None` when the script stops on a number. */
  function AnalyzeFieldLengths(data: seq<Item>, field: string, mode: CountType): (r: Option<Stats>)
    ensures r.None? <==> exists i :: 0 <= i < |data| && Fails(data[i], field, mode)
    ensures r.Some? && mode == OtherMode ==> r.value.min.None? && r.value.values == []
    ensures r.Some? && mode == Characters && r.value.min.Some? ==> r.value.min.value >= 1.0
    ensures r.Some? ==> Lengths(data, field, mode).Some? && Summary(Lengths(data, field, mode).value, r.value)
  {
    var ls := Lengths(data, field, mode);
    if ls.None? then None else Some(Describe(ls.value))
  }

  // ---------------------------------------------------------------------
  // Values of a numeric field

  /** The item's value is taken: the field is present and not null, and,
      when both a condition field and a condition value are given, the
      condition field is present with that value. */
  predicate Selected(item: Item, field: string, condField: Option<string>, condValue: Option<Value>)
  {
    && field in item && item[field] != Null
    && (condField.Some? && condValue.Some? ==>
          condField.value in item && item[condField.value] == condValue.value)
  }

  /** The item's selected value is the number `x`. */
  predicate Takes(item: Item, field: string, condField: Option<string>, condValue: Option<Value>, x: real)
  {
    Selected(item, field, condField, condValue) && item[field] == Num(x)
  }

  /** The item's selected value is not a number. */
  predicate Rejects(item: Item, field: string, condField: Option<string>, condValue: Option<Value>)
  {
    Selected(item, field, condField, condValue) && !item[field].Num?
  }

  /** The field's value in every selected item, in item order. */
  function Chosen(data: seq<Item>, field: string, condField: Option<string>,
                  condValue: Option<Value>): (r: seq<Value>)
    ensures |r| <= |data|
  {
    if data == [] then []
    else
      var head := if Selected(data[0], field, condField, condValue) then [data[0][field]] else [];
      head + Chosen(data[1..], field, condField, condValue)
  }

  /** The values collected by `analyze_numerical_field`, in item order;
      `None` when a selected value is not a number. */
  function NumericValues(data: seq<Item>, field: string, condField: Option<string>,
                         condValue: Option<Value>): (r: Option<seq<real>>)
    ensures r.None? <==> exists i :: 0 <= i < |data| && Rejects(data[i], field, condField, condValue)
    ensures r.Some? ==> forall i :: 0 <= i < |data| && Selected(data[i], field, condField, condValue) ==>
              data[i][field].x in r.value
    ensures r.Some? ==> forall k :: 0 <= k < |r.value| ==>
              exists i :: 0 <= i < |data| && Takes(data[i], field, condField, condValue, r.value[k])
  {
    if data == [] then Some([])
    else
      var item := data[0];
      var rest := NumericValues(data[1..], field, condField, condValue);
      assert forall i :: 1 <= i < |data| ==> data[i] == data[1..][i - 1];
      if Selected(item, field, condField, condValue) then
        if !item[field].Num? || rest.None? then None
        else Some([item[field].x] + rest.value)
      else if rest.None? then rest
      else
        assert forall k :: 0 <= k < |rest.value| ==>
          exists i :: 0 <= i < |data| && Takes(data[i], field, condField, condValue, rest.value[k]) by {
          forall k | 0 <= k < |rest.value|
            ensures exists i :: 0 <= i < |data| && Takes(data[i], field, condField, condValue, rest.value[k]) {
            var j :| 0 <= j < |data[1..]| && Takes(data[1..][j], field, condField, condValue, rest.value[k]);
            assert data[j + 1] == data[1..][j];
          }
        }
        rest
  }

  /** `v` lists the numbers inside `c`, one for one. */
  predicate Unwraps(c: seq<Value>, v: seq<real>)
  {
    |v| == |c| && forall k :: 0 <= k < |c| ==> c[k] == Num(v[k])
  }

  lemma UnwrapsCons(x: real, c: seq<Value>, v: seq<real>)
    requires Unwraps(c, v)
    ensures Unwraps([Num(x)] + c, [x] + v)
  {
    forall k | 0 < k < |c| + 1 ensures ([Num(x)] + c)[k] == Num(([x] + v)[k]) {
      assert ([Num(x)] + c)[k] == c[k - 1];
    }
  }

  /** The collected values are the selected items' values, each a number,
      one per selected item and in item order. */
  lemma {:induction false} NumericValuesAreChosen(data: seq<Item>, field: string,
                                                  condField: Option<string>, condValue: Option<Value>)
    ensures NumericValues(data, field, condField, condValue).Some? ==>
              Unwraps(Chosen(data, field, condField, condValue), NumericValues(data, field, condField, condValue).value)
  {
    if data != [] {
      NumericValuesAreChosen(data[1..], field, condField, condValue);
      var rest := NumericValues(data[1..], field, condField, condValue);
      var c := Chosen(data[1..], field, condField, condValue);
      if Selected(data[0], field, condField, condValue) {
        assert Chosen(data, field, condField, condValue) == [data[0][field]] + c;
        if data[0][field].Num? && rest.Some? {
          UnwrapsCons(data[0][field].x, c, rest.value);
        }
      } else {
        assert Chosen(data, field, condField, condValue) == c;
      }
    }
  }

  /** A condition field without a value, or a value without a field, is
      ignored: the result is that of no condition. */
  lemma {:induction false} HalfConditionIgnored(data: seq<Item>, field: string, c: string, v: Value)
    ensures NumericValues(data, field, Some(c), None) == NumericValues(data, field, None, None)
    ensures NumericValues(data, field, None, Some(v)) == NumericValues(data, field, None, None)
  {
    if data != [] {
      HalfConditionIgnored(data[1..], field, c, v);
    }
  }

  /** A condition only drops values: with one, no more values are taken
      than without. */
  lemma {:induction false} ConditionNarrows(data: seq<Item>, field: string, c: string, v: Value)
    requires NumericValues(data, field, None, None).Some?
    ensures NumericValues(data, field, Some(c), Some(v)).Some?
    ensures |NumericValues(data, field, Some(c), Some(v)).value|
              <= |NumericValues(data, field, None, None).value|
  {
    if data != [] {
      ConditionNarrows(data[1..], field, c, v);
    }
  }

  /** `analyze_numerical_field`: the summary of the selected values. */
  function AnalyzeNumericalField(data: seq<Item>, field: string, condField: Option<string>,
                                 condValue: Option<Value>): (r: Option<Stats>)
    ensures r.None? <==> exists i :: 0 <= i < |data| && Rejects(data[i], field, condField, condValue)
    ensures r.Some? ==> Unwraps(Chosen(data, field, condField, condValue), r.value.values)
    ensures r.Some? ==> Summarises(data, field, condField, condValue, r.value)
    ensures r.Some? ==> Summary(r.value.values, r.value)
  {
    var vs := NumericValues(data, field, condField, condValue);
    if vs.None? then None
    else
      NumericValuesAreChosen(data, field, condField, condValue);
      SummaryOfValues(data, field, condField, condValue);
      Some(Describe(vs.value))
  }

  /** The summary's bounds are values some selected item holds, every
      selected value lies between them, and so do the mean and median;
      with no selected item there are no statistics. */
  predicate Summarises(data: seq<Item>, field: string, condField: Option<string>,
                       condValue: Option<Value>, d: Stats)
  {
    && (d.min.None? <==> forall i :: 0 <= i < |data| ==> !Selected(data[i], field, condField, condValue))
    && (d.min.Some? ==>
          && d.max.Some? && d.mean.Some? && d.median.Some?
          && (forall i :: (0 <= i < |data| && Selected(data[i], field, condField, condValue)
                             && data[i][field].Num?) ==> d.min.value <= data[i][field].x <= d.max.value)
          && (exists i :: 0 <= i < |data| && Takes(data[i], field, condField, condValue, d.min.value))
          && (exists i :: 0 <= i < |data| && Takes(data[i], field, condField, condValue, d.max.value))
          && d.min.value <= d.mean.value <= d.max.value
          && d.min.value <= d.median.value <= d.max.value)
  }

  lemma SummaryOfValues(data: seq<Item>, field: string, condField: Option<string>, condValue: Option<Value>)
    requires NumericValues(data, field, condField, condValue).Some?
    ensures Summarises(data, field, condField, condValue,
                       Describe(NumericValues(data, field, condField, condValue).value))
  {
    var vs := NumericValues(data, field, condField, condValue).value;
    assert forall i :: 0 <= i < |data| && Selected(data[i], field, condField, condValue) ==>
      data[i][field].x in vs;
    if vs != [] {
      DescribeOrdered(vs);
      var d := Describe(vs);
      var k :| 0 <= k < |vs| && vs[k] == d.min.value;
      var m :| 0 <= m < |vs| && vs[m] == d.max.value;
      forall i | 0 <= i < |data| && Selected(data[i], field, condField, condValue) && data[i][field].Num?
        ensures d.min.value <= data[i][field].x <= d.max.value
      {
        var j :| 0 <= j < |vs| && vs[j] == data[i][field].x;
      }
    }
  }
}
