/** Shared vocabulary of the model: optional values (a JSON key that may be
    absent), results with an error, and small counting and summing helpers
    over sequences. */
module Common {

  /** A value that may be missing; `None` stands for an absent JSON key. */
  datatype Option<T> = None | Some(value: T) {

    /** The value, or `default` when it is missing (Python's `dict.get(k, default)`). */
    function GetOr(default: T): T
    {
      if Some? then value else default
    }
  }

  /** The outcome of a step that can abort. */
  datatype Result<T, E> = Ok(value: T) | Err(error: E)

  /** A vector of `n` zeros (`np.zeros(n)`). */
  function Zeros(n: nat): (r: seq<real>)
    ensures |r| == n
    ensures forall i :: 0 <= i < n ==> r[i] == 0.0
  {
    seq(n, _ => 0.0)
  }

  /** True when every element of `v` is zero. */
  predicate AllZero(v: seq<real>)
  {
    forall i :: 0 <= i < |v| ==> v[i] == 0.0
  }

  /** Sum of a sequence of reals. */
  function Sum(v: seq<real>): real
  {
    if v == [] then 0.0 else Sum(v[..|v| - 1]) + v[|v| - 1]
  }

  /** Sum of a sequence of integers. */
  function SumInt(v: seq<int>): int
  {
    if v == [] then 0 else SumInt(v[..|v| - 1]) + v[|v| - 1]
  }

  /** Number of positions of `v` that hold `x`. */
  function Occurrences<T(==)>(v: seq<T>, x: T): nat
  {
    if v == [] then 0
    else Occurrences(v[..|v| - 1], x) + (if v[|v| - 1] == x then 1 else 0)
  }

  /** No value occurs twice in `v`. */
  predicate Distinct<T(==)>(v: seq<T>)
  {
    forall i, j :: 0 <= i < j < |v| ==> v[i] != v[j]
  }

  /** Count stored under `k` in a histogram, 0 when the key is absent
      (a `defaultdict(int)` read). */
  function CountOf<K>(m: map<K, nat>, k: K): nat
  {
    if k in m then m[k] else 0
  }

  /** Adds one to the count under `k` (`d[k] = d.get(k, 0) + 1`). */
  function Bump<K(!new)>(m: map<K, nat>, k: K): (r: map<K, nat>)
    ensures r.Keys == m.Keys + {k}
    ensures CountOf(r, k) == CountOf(m, k) + 1
    ensures forall j :: j != k ==> CountOf(r, j) == CountOf(m, j)
  {
    m[k := CountOf(m, k) + 1]
  }

  lemma SumAppend(v: seq<real>, x: real)
    ensures Sum(v + [x]) == Sum(v) + x
  {
    assert (v + [x])[..|v|] == v;
  }

  lemma SumIntAppend(v: seq<int>, x: int)
    ensures SumInt(v + [x]) == SumInt(v) + x
  {
    assert (v + [x])[..|v|] == v;
  }

  /** Sum of `n` copies of `c`. */
  lemma {:induction false} SumConstant(v: seq<real>, c: real)
    requires forall i :: 0 <= i < |v| ==> v[i] == c
    ensures Sum(v) == (|v| as real) * c
  {
    if v != [] {
      SumConstant(v[..|v| - 1], c);
    }
  }

  lemma OccurrencesAppend<T>(v: seq<T>, x: T, y: T)
    ensures Occurrences(v + [x], y) == Occurrences(v, y) + (if x == y then 1 else 0)
  {
    assert (v + [x])[..|v|] == v;
  }

  /** A value occurs in `v` exactly when its count is positive. */
  lemma {:induction false} OccurrencesPositive<T>(v: seq<T>, x: T)
    ensures Occurrences(v, x) > 0 <==> x in v
  {
    if v != [] {
      OccurrencesPositive(v[..|v| - 1], x);
      assert v == v[..|v| - 1] + [v[|v| - 1]];
    }
  }

  /** In a sequence without repetitions every member occurs once. */
  lemma {:induction false} DistinctOccursOnce<T>(v: seq<T>, x: T)
    requires Distinct(v)
    requires x in v
    ensures Occurrences(v, x) == 1
  {
    var init := v[..|v| - 1];
    if v[|v| - 1] == x {
      assert x !in init;
      OccurrencesPositive(init, x);
    } else {
      assert x in init;
      DistinctOccursOnce(init, x);
    }
  }
}
