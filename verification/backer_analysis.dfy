/** Backer analysis over the web database (`Tools/backer_analysis.py`):
    funding per backer by title-cased category, the top funded projects
    with distinct ids, and the timeframe and category filters in front of
    both. */
module BackerAnalysis {
  import opened Common
  import opened Text
  import opened Sorting

  const SecondsPerDay: int := 24 * 60 * 60

  /** The fields of a web record the analysis reads. */
  datatype Project = Project(id: int, category: string, backers: int, pledgedUsd: real, calDeadline: int)

  // ---------------------------------------------------------------------
  // Funding per backer

  /** The running totals of one category. */
  datatype Entry = Entry(category: string, totalFunds: real, totalBackers: int)

  predicate AllBacked(es: seq<Entry>)
  {
    forall i :: 0 <= i < |es| ==> es[i].totalBackers > 0
  }

  /** The entry of `cat`, if any. */
  function Lookup(es: seq<Entry>, cat: string): Option<Entry>
  {
    if es == [] then None
    else if es[0].category == cat then Some(es[0])
    else Lookup(es[1..], cat)
  }

  /** Adds a backed project to its category, creating the entry at the end
      on first sight (dict insertion order). */
  function AddFunding(es: seq<Entry>, cat: string, p: Project): (r: seq<Entry>)
    requires AllBacked(es) && p.backers > 0
    ensures AllBacked(r)
  {
    if es == [] then [Entry(cat, p.pledgedUsd, p.backers)]
    else if es[0].category == cat then
      [Entry(cat, es[0].totalFunds + p.pledgedUsd, es[0].totalBackers + p.backers)] + es[1..]
    else [es[0]] + AddFunding(es[1..], cat, p)
  }

  /** The loop of `analyze_backer_funding`: projects without backers are
      skipped. */
  function Funding(ps: seq<Project>): (r: seq<Entry>)
    ensures AllBacked(r)
  {
    if ps == [] then []
    else
      var es := Funding(ps[..|ps| - 1]);
      var p := ps[|ps| - 1];
      if p.backers > 0 then AddFunding(es, Title(p.category), p) else es
  }

  /** Reference sums: the backers and the funds of the backed projects
      whose title-cased category is `cat`. */
  function BackersIn(ps: seq<Project>, cat: string): int
  {
    if ps == [] then 0
    else
      var p := ps[|ps| - 1];
      BackersIn(ps[..|ps| - 1], cat) + (if p.backers > 0 && Title(p.category) == cat then p.backers else 0)
  }

  function FundsIn(ps: seq<Project>, cat: string): real
  {
    if ps == [] then 0.0
    else
      var p := ps[|ps| - 1];
      FundsIn(ps[..|ps| - 1], cat) + (if p.backers > 0 && Title(p.category) == cat then p.pledgedUsd else 0.0)
  }

  predicate Contributes(p: Project, cat: string)
  {
    p.backers > 0 && Title(p.category) == cat
  }

  lemma {:induction false} AddFundingLookup(es: seq<Entry>, cat: string, p: Project, c: string)
    requires AllBacked(es) && p.backers > 0
    ensures Lookup(AddFunding(es, cat, p), c) ==
              if c != cat then Lookup(es, c)
              else match Lookup(es, c)
                case None => Some(Entry(cat, p.pledgedUsd, p.backers))
                case Some(e) => Some(Entry(cat, e.totalFunds + p.pledgedUsd, e.totalBackers + p.backers))
  {
    if es != [] && es[0].category != cat {
      AddFundingLookup(es[1..], cat, p, c);
    }
  }

  /** Each category's entry holds exactly the funds and backers of the
      backed projects of that category, and a category has an entry only
      when it has such a project. */
  lemma {:induction false} FundingTotals(ps: seq<Project>, c: string)
    ensures Lookup(Funding(ps), c).Some? <==> exists i :: 0 <= i < |ps| && Contributes(ps[i], c)
    ensures Lookup(Funding(ps), c).Some? ==>
              Lookup(Funding(ps), c).value == Entry(c, FundsIn(ps, c), BackersIn(ps, c))
    ensures Lookup(Funding(ps), c).None? ==> FundsIn(ps, c) == 0.0 && BackersIn(ps, c) == 0
  {
    if ps != [] {
      var init := ps[..|ps| - 1];
      var p := ps[|ps| - 1];
      FundingTotals(init, c);
      if p.backers > 0 {
        AddFundingLookup(Funding(init), Title(p.category), p, c);
      }
      LookupFound(Funding(init), c);
      assert forall i :: 0 <= i < |init| ==> init[i] == ps[i];
      if exists i :: 0 <= i < |ps| && Contributes(ps[i], c) {
        var i :| 0 <= i < |ps| && Contributes(ps[i], c);
        if i < |init| {
          assert Contributes(init[i], c);
        }
      }
    }
  }

  /** A found entry carries the name it was looked up by. */
  lemma {:induction false} LookupFound(es: seq<Entry>, c: string)
    ensures Lookup(es, c).Some? ==> Lookup(es, c).value.category == c && Lookup(es, c).value in es
  {
    if es != [] && es[0].category != c {
      LookupFound(es[1..], c);
    }
  }

  /** Funding per backer of each entry, in entry order. */
  function Averages(es: seq<Entry>): (r: seq<(string, real)>)
    requires AllBacked(es)
    ensures |r| == |es|
    ensures forall k :: 0 <= k < |es| ==> r[k] == (es[k].category, es[k].totalFunds / es[k].totalBackers as real)
  {
    seq(|es|, k requires 0 <= k < |es| => (es[k].category, es[k].totalFunds / es[k].totalBackers as real))
  }

  function Second(x: (string, real)): real
  {
    x.1
  }

  /** The two lists `zip(*averages)` splits a list of pairs into. */
  function Unzip(v: seq<(string, real)>): (r: (seq<string>, seq<real>))
    ensures |r.0| == |r.1| == |v|
    ensures forall i :: 0 <= i < |v| ==> v[i] == (r.0[i], r.1[i])
  {
    (seq(|v|, i requires 0 <= i < |v| => v[i].0), seq(|v|, i requires 0 <= i < |v| => v[i].1))
  }

  /** `analyze_backer_funding`: the categories and their funding per
      backer, sorted by the latter, highest first. */
  function BackerFunding(ps: seq<Project>): (r: (seq<string>, seq<real>))
    ensures |r.0| == |r.1| == |Funding(ps)|
    ensures forall i, j :: 0 <= i < j < |r.1| ==> r.1[i] >= r.1[j]
    ensures forall i :: 0 <= i < |r.0| ==> (r.0[i], r.1[i]) in Averages(Funding(ps))
    ensures multiset(Zip(r.0, r.1)) == multiset(Averages(Funding(ps)))
  {
    var avg := Averages(Funding(ps));
    var sorted := SortDesc(avg, Second);
    SortedPairs(avg, sorted);
    var r := Unzip(sorted);
    assert Zip(r.0, r.1) == sorted;
    r
  }

  /** `zip(categories, averages)`: the pairs back from the two lists. */
  function Zip(a: seq<string>, b: seq<real>): (r: seq<(string, real)>)
    requires |a| == |b|
    ensures |r| == |a| && forall i :: 0 <= i < |a| ==> r[i] == (a[i], b[i])
  {
    seq(|a|, i requires 0 <= i < |a| => (a[i], b[i]))
  }

  lemma SortedPairs(avg: seq<(string, real)>, sorted: seq<(string, real)>)
    requires multiset(sorted) == multiset(avg)
    ensures |sorted| == |avg|
    ensures forall i :: 0 <= i < |sorted| ==> sorted[i] in avg
  {
    assert |multiset(sorted)| == |multiset(avg)|;
    forall i | 0 <= i < |sorted| ensures sorted[i] in avg {
      assert sorted[i] in multiset(sorted);
    }
  }

  /** With no backed project both lists are empty. */
  lemma NoBackersNoFunding(ps: seq<Project>)
    requires forall i :: 0 <= i < |ps| ==> ps[i].backers <= 0
    ensures BackerFunding(ps) == ([], [])
  {
    NoBackersEmpty(ps);
  }

  lemma {:induction false} NoBackersEmpty(ps: seq<Project>)
    requires forall i :: 0 <= i < |ps| ==> ps[i].backers <= 0
    ensures Funding(ps) == []
  {
    if ps != [] {
      NoBackersEmpty(ps[..|ps| - 1]);
    }
  }

  // ---------------------------------------------------------------------
  // Top funded projects

  function Pledged(p: Project): real
  {
    p.pledgedUsd
  }

  function Ids(v: seq<Project>): set<int>
  {
    set i | 0 <= i < |v| :: v[i].id
  }

  predicate DistinctIds(v: seq<Project>)
  {
    forall i, j :: 0 <= i < j < |v| ==> v[i].id != v[j].id
  }

  /** `p['category'].lower() == category.lower()`. */
  function CategoryFilter(ps: seq<Project>, category: string): (r: seq<Project>)
    ensures forall p :: p in r <==> p in ps && Lower(p.category) == Lower(category)
  {
    if ps == [] then []
    else
      var init := ps[..|ps| - 1];
      var p := ps[|ps| - 1];
      assert ps == init + [p];
      CategoryFilter(init, category) + (if Lower(p.category) == Lower(category) then [p] else [])
  }

  /** Filtering twice by the same category is filtering once. */
  lemma {:induction false} CategoryFilterIdempotent(ps: seq<Project>, category: string)
    ensures CategoryFilter(CategoryFilter(ps, category), category) == CategoryFilter(ps, category)
  {
    if ps != [] {
      var init := ps[..|ps| - 1];
      var p := ps[|ps| - 1];
      var f := CategoryFilter(init, category);
      CategoryFilterIdempotent(init, category);
      if Lower(p.category) == Lower(category) {
        var r := f + [p];
        assert r[..|r| - 1] == f;
      } else {
        assert f + [] == f;
      }
    }
  }

  lemma IdsTail(v: seq<Project>)
    requires v != []
    ensures Ids(v) == {v[0].id} + Ids(v[1..])
  {
    forall x | x in Ids(v) ensures x in {v[0].id} + Ids(v[1..]) {
      var i :| 0 <= i < |v| && v[i].id == x;
      if i > 0 { assert v[1..][i - 1] == v[i]; }
    }
    forall x | x in Ids(v[1..]) ensures x in Ids(v) {
      var i :| 0 <= i < |v[1..]| && v[1..][i].id == x;
      assert v[i + 1] == v[1..][i];
    }
  }

  lemma IdsSnoc(acc: seq<Project>, p: Project)
    ensures Ids(acc + [p]) == Ids(acc) + {p.id}
  {
    var r := acc + [p];
    assert r[|acc|] == p;
    forall x | x in Ids(r) ensures x in Ids(acc) + {p.id} {
      var i :| 0 <= i < |r| && r[i].id == x;
      if i < |acc| { assert r[i] == acc[i]; }
    }
    forall x | x in Ids(acc) ensures x in Ids(r) {
      var i :| 0 <= i < |acc| && acc[i].id == x;
      assert r[i] == acc[i];
    }
  }

  /** Taking the head of the sorted rest keeps what the loop relies on:
      the taken list stays sorted and ahead of the rest, with distinct ids. */
  lemma TakeHead(v: seq<Project>, acc: seq<Project>)
    requires v != []
    requires Descending(v, Pledged) && Descending(acc, Pledged)
    requires forall a, b :: a in acc && b in v ==> a.pledgedUsd >= b.pledgedUsd
    requires DistinctIds(acc) && v[0].id !in Ids(acc)
    ensures Descending(acc + [v[0]], Pledged)
    ensures forall a, b :: a in acc + [v[0]] && b in v[1..] ==> a.pledgedUsd >= b.pledgedUsd
    ensures DistinctIds(acc + [v[0]])
  {
    var p := v[0];
    var acc' := acc + [p];
    forall i | 0 <= i < |acc| ensures acc[i].id != p.id && acc[i].pledgedUsd >= p.pledgedUsd {
      assert acc[i] in acc;
    }
    forall a, b | a in acc' && b in v[1..] ensures a.pledgedUsd >= b.pledgedUsd {
      var j :| 0 <= j < |v[1..]| && v[1..][j] == b;
      assert v[j + 1] == b;
    }
  }

  /** Reference for the loop below: the first project of each id not in
      `seen`, in order. */
  function Unique(v: seq<Project>, seen: set<int>): seq<Project>
    decreases |v|
  {
    if v == [] then []
    else if v[0].id in seen then Unique(v[1..], seen)
    else [v[0]] + Unique(v[1..], seen + {v[0].id})
  }

  /** The first `n` entries, or all of them when `n < 1` (the loop's
      `len(unique_projects) == top_n` test never holds then). */
  function Limit(u: seq<Project>, n: int): seq<Project>
  {
    if n < 1 || |u| <= n then u else u[..n]
  }

  lemma LimitCons(x: Project, u: seq<Project>, n: int)
    ensures n == 1 ==> Limit([x] + u, n) == [x]
    ensures n != 1 ==> Limit([x] + u, n) == [x] + Limit(u, n - 1)
  {
    if n > 1 && |u| + 1 > n {
      assert ([x] + u)[..n] == [x] + u[..n - 1];
    }
  }

  /** There are as many first projects as ids not yet seen. */
  lemma {:induction false} UniqueCount(v: seq<Project>, seen: set<int>)
    ensures |Unique(v, seen)| == |Ids(v) - seen|
    decreases |v|
  {
    if v == [] {
      assert Ids(v) == {};
    } else {
      IdsTail(v);
      var x := v[0].id;
      if x in seen {
        UniqueCount(v[1..], seen);
        assert Ids(v) - seen == Ids(v[1..]) - seen;
      } else {
        UniqueCount(v[1..], seen + {x});
        assert Ids(v) - seen == {x} + (Ids(v[1..]) - (seen + {x}));
      }
    }
  }

  /** The loop of `find_top_funded_projects` over the sorted projects:
      the first project of each id is taken, and the loop stops once
      `topN` are taken (never, for `topN <= 0`). */
  function Pick(v: seq<Project>, topN: int, acc: seq<Project>): (r: seq<Project>)
    requires Descending(v, Pledged) && Descending(acc, Pledged)
    requires forall a, b :: a in acc && b in v ==> a.pledgedUsd >= b.pledgedUsd
    requires DistinctIds(acc)
    requires topN < 1 || |acc| < topN
    ensures acc <= r
    ensures Descending(r, Pledged) && DistinctIds(r)
    ensures forall x :: x in r ==> x in acc || x in v
    ensures topN >= 1 ==> |r| <= topN
    ensures topN < 1 ==> Ids(r) == Ids(acc) + Ids(v)
    decreases |v|
  {
    if v == [] then
      assert Ids(v) == {};
      acc
    else
      IdsTail(v);
      assert forall b :: b in v[1..] ==> b in v;
      if v[0].id in Ids(acc) then Pick(v[1..], topN, acc)
      else
        TakeHead(v, acc);
        IdsSnoc(acc, v[0]);
        var acc' := acc + [v[0]];
        if |acc'| == topN then acc'
        else
          var r := Pick(v[1..], topN, acc');
          assert acc <= acc';
          r
  }

  lemma Append(acc: seq<Project>, x: Project, l: seq<Project>)
    ensures (acc + [x]) + l == acc + ([x] + l)
  {
  }

  /** The loop takes, after what it already holds, the first project of
      each id it has not seen yet, until it holds `topN`. */
  lemma {:induction false} PickIsLimit(v: seq<Project>, topN: int, acc: seq<Project>)
    requires Descending(v, Pledged) && Descending(acc, Pledged)
    requires forall a, b :: a in acc && b in v ==> a.pledgedUsd >= b.pledgedUsd
    requires DistinctIds(acc)
    requires topN < 1 || |acc| < topN
    ensures Pick(v, topN, acc) == acc + Limit(Unique(v, Ids(acc)), topN - |acc|)
    decreases |v|
  {
    if v == [] {
      assert acc + [] == acc;
    } else {
      IdsTail(v);
      assert forall b :: b in v[1..] ==> b in v;
      if v[0].id in Ids(acc) {
        assert Pick(v, topN, acc) == Pick(v[1..], topN, acc);
        assert Unique(v, Ids(acc)) == Unique(v[1..], Ids(acc));
        PickIsLimit(v[1..], topN, acc);
      } else {
        TakeHead(v, acc);
        IdsSnoc(acc, v[0]);
        var acc' := acc + [v[0]];
        var u := Unique(v[1..], Ids(acc'));
        assert Unique(v, Ids(acc)) == [v[0]] + u;
        LimitCons(v[0], u, topN - |acc|);
        if |acc'| == topN {
          assert Pick(v, topN, acc) == acc';
        } else {
          assert Pick(v, topN, acc) == Pick(v[1..], topN, acc');
          PickIsLimit(v[1..], topN, acc');
          assert topN - |acc'| == topN - |acc| - 1;
          Append(acc, v[0], Limit(u, topN - |acc'|));
        }
      }
    }
  }

  /** Sorting keeps the members and hence the ids. */
  lemma SortedMembers(filtered: seq<Project>, sorted: seq<Project>)
    requires multiset(sorted) == multiset(filtered)
    ensures forall x :: x in sorted <==> x in filtered
    ensures Ids(sorted) == Ids(filtered)
  {
    forall x ensures x in sorted <==> x in filtered {
      assert x in sorted <==> x in multiset(sorted);
      assert x in filtered <==> x in multiset(filtered);
    }
    forall x | x in Ids(sorted) ensures x in Ids(filtered) {
      var i :| 0 <= i < |sorted| && sorted[i].id == x;
      assert sorted[i] in filtered;
      var j :| 0 <= j < |filtered| && filtered[j] == sorted[i];
    }
    forall x | x in Ids(filtered) ensures x in Ids(sorted) {
      var i :| 0 <= i < |filtered| && filtered[i].id == x;
      assert filtered[i] in sorted;
      var j :| 0 <= j < |sorted| && sorted[j] == filtered[i];
    }
  }

  /** The projects `find_top_funded_projects` looks at. */
  function Candidates(ps: seq<Project>, category: Option<string>): (r: seq<Project>)
    ensures forall x :: x in r ==> x in ps
    ensures category.Some? && category.value != [] ==>
              forall x :: x in r ==> Lower(x.category) == Lower(category.value)
    ensures category.None? || category.value == [] ==> r == ps
  {
    if category.Some? && category.value != [] then CategoryFilter(ps, category.value) else ps
  }

  /** `find_top_funded_projects`: the projects of the category (ignoring
      case) when one is given, sorted by pledged amount, first project of
      each id, at most `topN` of them; with `topN < 1` every id is taken. */
  function TopFunded(ps: seq<Project>, category: Option<string>, topN: int): (r: seq<Project>)
    ensures topN >= 1 ==> |r| <= topN
    ensures DistinctIds(r)
    ensures forall i, j :: 0 <= i < j < |r| ==> r[i].pledgedUsd >= r[j].pledgedUsd
    ensures forall x :: x in r ==> x in Candidates(ps, category)
    ensures topN < 1 ==> Ids(r) == Ids(Candidates(ps, category))
    ensures r == Limit(Unique(SortDesc(Candidates(ps, category), Pledged), {}), topN)
    ensures |r| == var n := |Ids(Candidates(ps, category))|; if topN < 1 || n <= topN then n else topN
  {
    var filtered := Candidates(ps, category);
    var sorted := SortDesc(filtered, Pledged);
    PickSorted(filtered, sorted, topN);
    Pick(sorted, topN, [])
  }

  /** What `TopFunded` promises, for any sorting of the candidates. */
  lemma PickSorted(filtered: seq<Project>, sorted: seq<Project>, topN: int)
    requires multiset(sorted) == multiset(filtered) && Descending(sorted, Pledged)
    ensures var r := Pick(sorted, topN, []);
      && (forall x :: x in r ==> x in filtered)
      && (topN < 1 ==> Ids(r) == Ids(filtered))
      && r == Limit(Unique(sorted, {}), topN)
      && |r| == var n := |Ids(filtered)|; if topN < 1 || n <= topN then n else topN
  {
    SortedMembers(filtered, sorted);
    assert Ids([]) == {};
    UniqueCount(sorted, {});
    assert Ids(sorted) - {} == Ids(filtered);
    PickIsLimit(sorted, topN, []);
    assert [] + Limit(Unique(sorted, {}), topN) == Limit(Unique(sorted, {}), topN);
  }

  // ---------------------------------------------------------------------
  // The analysis

  /** `start_time <= p['cal_deadline'] <= END_DATE`. */
  function Timeframe(ps: seq<Project>, endDate: int, days: int): (r: seq<Project>)
    ensures forall p :: p in r <==> p in ps && endDate - days * SecondsPerDay <= p.calDeadline <= endDate
  {
    if ps == [] then []
    else
      var init := ps[..|ps| - 1];
      var p := ps[|ps| - 1];
      assert ps == init + [p];
      Timeframe(init, endDate, days)
        + (if endDate - days * SecondsPerDay <= p.calDeadline <= endDate then [p] else [])
  }

  datatype Report = Report(categories: seq<string>, funding: seq<real>, top: seq<Project>)

  /** The projects `analyze_projects` works on: those ending inside the
      window when one is given, of the category when one is named. */
  function Selection(ps: seq<Project>, endDate: int, days: Option<int>, category: Option<string>): (r: seq<Project>)
    ensures forall p :: p in r <==>
              && p in ps
              && (days.Some? ==> endDate - days.value * SecondsPerDay <= p.calDeadline <= endDate)
              && (category.Some? && category.value != [] ==> Lower(p.category) == Lower(category.value))
  {
    var inTime := if days.Some? then Timeframe(ps, endDate, days.value) else ps;
    if category.Some? && category.value != [] then CategoryFilter(inTime, category.value) else inTime
  }

  /** `analyze_projects` without the display: the timeframe filter (none
      for `N/A`), the category filter, which aborts when it leaves nothing,
      then the funding per backer and the top five. */
  function Analyze(ps: seq<Project>, endDate: int, days: Option<int>, category: Option<string>): (r: Option<Report>)
    ensures r.Some? ==> |r.value.top| <= 5
    ensures r.Some? && category.Some? && category.value != [] ==>
              forall x :: x in r.value.top ==> Lower(x.category) == Lower(category.value)
    ensures r.Some? && days.Some? ==>
              forall x :: x in r.value.top ==> endDate - days.value * SecondsPerDay <= x.calDeadline <= endDate
    ensures r.None? <==> (category.Some? && category.value != [] &&
              CategoryFilter(if days.Some? then Timeframe(ps, endDate, days.value) else ps, category.value) == [])
    ensures r.Some? ==> (r.value.categories, r.value.funding) == BackerFunding(Selection(ps, endDate, days, category))
    ensures r.Some? ==> r.value.top == TopFunded(Selection(ps, endDate, days, category), category, 5)
  {
    var inTime := if days.Some? then Timeframe(ps, endDate, days.value) else ps;
    if category.Some? && category.value != [] then
      var chosen := CategoryFilter(inTime, category.value);
      if chosen == [] then None
      else
        var (cats, avgs) := BackerFunding(chosen);
        Some(Report(cats, avgs, TopFunded(chosen, category, 5)))
    else
      var (cats, avgs) := BackerFunding(inTime);
      Some(Report(cats, avgs, TopFunded(inTime, category, 5)))
  }
}
