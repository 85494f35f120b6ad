/** Orderings the pipeline sorts by: Python's `<` on strings (code point
    by code point), the sorted list of distinct strings that
    `sorted(set(...))` yields, and a descending sort by a real key. */
module Sorting {

  /** Python's `a < b` on `str`: the first differing character decides,
      and a proper prefix comes first. */
  predicate StrLess(a: string, b: string)
  {
    if a == [] then b != []
    else if b == [] then false
    else if a[0] != b[0] then a[0] < b[0]
    else StrLess(a[1..], b[1..])
  }

  lemma {:induction false} StrLessIrreflexive(a: string)
    ensures !StrLess(a, a)
  {
    if a != [] {
      StrLessIrreflexive(a[1..]);
    }
  }

  lemma {:induction false} StrLessTransitive(a: string, b: string, c: string)
    requires StrLess(a, b) && StrLess(b, c)
    ensures StrLess(a, c)
  {
    if a != [] && b != [] && c != [] && a[0] == b[0] && b[0] == c[0] {
      StrLessTransitive(a[1..], b[1..], c[1..]);
    }
  }

  /** Any two different strings are ordered one way or the other. */
  lemma {:induction false} StrLessTotal(a: string, b: string)
    requires a != b
    ensures StrLess(a, b) || StrLess(b, a)
  {
    if a != [] && b != [] && a[0] == b[0] {
      assert a == [a[0]] + a[1..] && b == [b[0]] + b[1..];
      StrLessTotal(a[1..], b[1..]);
    }
  }

  lemma StrLessAsymmetric(a: string, b: string)
    requires StrLess(a, b)
    ensures !StrLess(b, a)
  {
    if StrLess(b, a) {
      StrLessTransitive(a, b, a);
      StrLessIrreflexive(a);
    }
  }

  /** Every element is smaller than every later one, so no value repeats. */
  predicate StrictlySorted(v: seq<string>)
  {
    forall i, j :: 0 <= i < j < |v| ==> StrLess(v[i], v[j])
  }

  lemma StrictlySortedDistinct(v: seq<string>, i: int, j: int)
    requires StrictlySorted(v)
    requires 0 <= i < |v| && 0 <= j < |v| && i != j
    ensures v[i] != v[j]
  {
    if i < j { StrLessIrreflexive(v[i]); } else { StrLessIrreflexive(v[j]); }
  }

  /** Inserts `x` into a strictly sorted list unless it is already there. */
  function Insert(v: seq<string>, x: string): (r: seq<string>)
    requires StrictlySorted(v)
    ensures StrictlySorted(r)
    ensures forall y :: y in r <==> y in v || y == x
  {
    if v == [] then [x]
    else if x == v[0] then v
    else if StrLess(x, v[0]) then
      forall j | 0 < j < |v| ensures StrLess(x, v[j]) {
        StrLessTransitive(x, v[0], v[j]);
      }
      [x] + v
    else
      StrLessTotal(x, v[0]);
      var rest := Insert(v[1..], x);
      assert forall y :: y in v <==> y == v[0] || y in v[1..] by {
        assert v == [v[0]] + v[1..];
      }
      forall k | 0 <= k < |rest| ensures StrLess(v[0], rest[k]) {
        if rest[k] != x {
          assert rest[k] in rest;
          assert rest[k] in v[1..];
          var j :| 0 <= j < |v[1..]| && v[1..][j] == rest[k];
          assert v[j + 1] == rest[k];
        }
      }
      [v[0]] + rest
  }

  /** `sorted(set(xs))`: the distinct values of `xs` in increasing order. */
  function SortedDistinct(xs: seq<string>): (v: seq<string>)
    ensures StrictlySorted(v)
    ensures forall y :: y in v <==> y in xs
  {
    if xs == [] then []
    else
      var init := xs[..|xs| - 1];
      assert forall y :: y in xs <==> y in init || y == xs[|xs| - 1] by {
        assert xs == init + [xs[|xs| - 1]];
      }
      Insert(SortedDistinct(init), xs[|xs| - 1])
  }

  /** Two strictly sorted lists with the same members are the same list:
      `SortedDistinct(xs)` is the only sorted, duplicate-free listing of the
      values of `xs`. */
  lemma {:induction false} StrictlySortedUnique(v: seq<string>, w: seq<string>)
    requires StrictlySorted(v) && StrictlySorted(w)
    requires forall y :: y in v <==> y in w
    ensures v == w
  {
    if v != [] {
      assert v[0] in w;
    }
    if w != [] {
      assert w[0] in v;
    }
    if v != [] && w != [] {
      // the first element of each list is the least member of both
      if v[0] != w[0] {
        var i :| 0 <= i < |w| && w[i] == v[0];
        var j :| 0 <= j < |v| && v[j] == w[0];
        assert StrLess(v[0], v[j]);
        assert StrLess(w[0], w[i]);
        StrLessAsymmetric(v[0], w[0]);
        assert false;
      }
      forall y ensures y in v[1..] <==> y in w[1..] {
        if y in v[1..] {
          var k :| 0 <= k < |v[1..]| && v[1..][k] == y;
          StrictlySortedDistinct(v, 0, k + 1);
          assert y in w && y != w[0];
          assert w == [w[0]] + w[1..];
        }
        if y in w[1..] {
          var k :| 0 <= k < |w[1..]| && w[1..][k] == y;
          StrictlySortedDistinct(w, 0, k + 1);
          assert y in v && y != v[0];
          assert v == [v[0]] + v[1..];
        }
      }
      StrictlySortedUnique(v[1..], w[1..]);
      assert v == [v[0]] + v[1..] && w == [w[0]] + w[1..];
    }
  }

  // ---------------------------------------------------------------------
  // Descending sort by a real key

  /** Keys never increase along `v`. */
  predicate Descending<T>(v: seq<T>, key: T -> real)
  {
    forall i, j :: 0 <= i < j < |v| ==> key(v[i]) >= key(v[j])
  }

  /** A head whose key bounds every key of a descending list keeps it
      descending. */
  lemma ConsDescending<T>(h: T, rest: seq<T>, key: T -> real)
    requires Descending(rest, key)
    requires forall k :: 0 <= k < |rest| ==> key(h) >= key(rest[k])
    ensures Descending([h] + rest, key)
  {
    var r := [h] + rest;
    forall i, j | 0 <= i < j < |r| ensures key(r[i]) >= key(r[j]) {
      assert r[j] == rest[j - 1];
      if i > 0 { assert r[i] == rest[i - 1]; }
    }
  }

  /** Every member of a list holding the members of `v` and `x` has a key
      at most `bound`, when `bound` bounds `x` and every member of `v`. */
  lemma BoundedMembers<T>(v: seq<T>, x: T, rest: seq<T>, key: T -> real, bound: real)
    requires multiset(rest) == multiset(v) + multiset{x}
    requires key(x) <= bound
    requires forall k :: 0 <= k < |v| ==> key(v[k]) <= bound
    ensures forall k :: 0 <= k < |rest| ==> key(rest[k]) <= bound
  {
    forall k | 0 <= k < |rest| ensures key(rest[k]) <= bound {
      assert rest[k] in multiset(rest);
      if rest[k] != x {
        assert rest[k] in multiset(v);
        var i :| 0 <= i < |v| && v[i] == rest[k];
      }
    }
  }

  /** Places `x` after every element whose key is at least its own, so
      equal keys keep their input order. */
  function InsertDesc<T>(v: seq<T>, x: T, key: T -> real): (r: seq<T>)
    requires Descending(v, key)
    ensures Descending(r, key)
    ensures multiset(r) == multiset(v) + multiset{x}
    ensures |r| == |v| + 1
  {
    if v == [] then [x]
    else if key(v[0]) >= key(x) then
      var tail := v[1..];
      assert v == [v[0]] + tail;
      var rest := InsertDesc(tail, x, key);
      BoundedMembers(tail, x, rest, key, key(v[0]));
      ConsDescending(v[0], rest, key);
      [v[0]] + rest
    else
      assert forall k :: 0 <= k < |v| ==> key(v[0]) >= key(v[k]);
      ConsDescending(x, v, key);
      [x] + v
  }

  /** `sorted(xs, key=key, reverse=True)`. */
  function SortDesc<T>(xs: seq<T>, key: T -> real): (r: seq<T>)
    ensures Descending(r, key)
    ensures multiset(r) == multiset(xs)
    ensures |r| == |xs|
  {
    if xs == [] then []
    else
      var init := xs[..|xs| - 1];
      assert xs == init + [xs[|xs| - 1]];
      InsertDesc(SortDesc(init, key), xs[|xs| - 1], key)
  }

  /** Every element of the sorted list comes from the input. */
  lemma SortDescMembers<T>(xs: seq<T>, key: T -> real)
    ensures forall i :: 0 <= i < |SortDesc(xs, key)| ==> SortDesc(xs, key)[i] in xs
  {
    var r := SortDesc(xs, key);
    forall i | 0 <= i < |r| ensures r[i] in xs {
      assert r[i] in multiset(r);
    }
  }
}
