/** Period metrics over the web database (`Tools/row1_analysis.py` and
    `Tools/row1+2_analysis.py`): totals and success rate of the projects
    whose deadline falls in a window, the per-category breakdown, the
    percentage change between a recent and a previous window, and the
    top-five selection. Timestamps are integers; the fixed end date is a
    parameter. */
module PeriodAnalysis {
  import opened Common
  import opened Sorting

  const SecondsPerDay: int := 24 * 3600

  /** The fields of a web record the analyses read. */
  datatype Project = Project(
    category: string,
    subcategory: string,
    state: string,
    pledgedUsd: real,
    calLaunchedAt: int,
    calDeadline: int)

  // ---------------------------------------------------------------------
  // Filters

  /** `category == 'N/A' or p['category'] == category`. */
  predicate CategoryMatches(category: string, p: Project)
  {
    category == "N/A" || p.category == category
  }

  function CategoryFiltered(ps: seq<Project>, category: string): (r: seq<Project>)
    ensures |r| <= |ps|
    ensures forall p :: p in r <==> p in ps && CategoryMatches(category, p)
    ensures category == "N/A" ==> r == ps
  {
    if ps == [] then []
    else
      var init := ps[..|ps| - 1];
      var p := ps[|ps| - 1];
      assert ps == init + [p];
      CategoryFiltered(init, category) + (if CategoryMatches(category, p) then [p] else [])
  }

  /** Both ends inclusive. */
  predicate InWindow(start: int, end: int, p: Project)
  {
    start <= p.calDeadline <= end
  }

  function WindowFiltered(ps: seq<Project>, start: int, end: int): (r: seq<Project>)
    ensures |r| <= |ps|
    ensures forall p :: p in r <==> p in ps && InWindow(start, end, p)
  {
    if ps == [] then []
    else
      var init := ps[..|ps| - 1];
      var p := ps[|ps| - 1];
      assert ps == init + [p];
      WindowFiltered(init, start, end) + (if InWindow(start, end, p) then [p] else [])
  }

  // ---------------------------------------------------------------------
  // Totals

  function TotalFunds(ps: seq<Project>): real
  {
    if ps == [] then 0.0 else TotalFunds(ps[..|ps| - 1]) + ps[|ps| - 1].pledgedUsd
  }

  /** Projects whose state is exactly `successful`. */
  function Successful(ps: seq<Project>): (n: nat)
    ensures n <= |ps|
  {
    if ps == [] then 0
    else Successful(ps[..|ps| - 1]) + (if ps[|ps| - 1].state == "successful" then 1 else 0)
  }

  /** Successful share in percent, 0 for no projects. */
  function SuccessRate(successful: nat, total: nat): (r: real)
    requires successful <= total
    ensures 0.0 <= r <= 100.0
    ensures total == 0 ==> r == 0.0
    ensures total > 0 ==> r * total as real == successful as real * 100.0
  {
    if total > 0 then
      var r := successful as real / total as real * 100.0;
      assert successful as real / total as real <= 1.0;
      r
    else 0.0
  }

  // ---------------------------------------------------------------------
  // Default bounds when no window is given

  function MinLaunch(ps: seq<Project>): (m: int)
    requires ps != []
    ensures forall i :: 0 <= i < |ps| ==> m <= ps[i].calLaunchedAt
    ensures exists i :: 0 <= i < |ps| && m == ps[i].calLaunchedAt
  {
    if |ps| == 1 then ps[0].calLaunchedAt
    else
      var m := MinLaunch(ps[..|ps| - 1]);
      if ps[|ps| - 1].calLaunchedAt < m then ps[|ps| - 1].calLaunchedAt else m
  }

  function MaxDeadline(ps: seq<Project>): (m: int)
    requires ps != []
    ensures forall i :: 0 <= i < |ps| ==> ps[i].calDeadline <= m
    ensures exists i :: 0 <= i < |ps| && m == ps[i].calDeadline
  {
    if |ps| == 1 then ps[0].calDeadline
    else
      var m := MaxDeadline(ps[..|ps| - 1]);
      if ps[|ps| - 1].calDeadline > m then ps[|ps| - 1].calDeadline else m
  }

  /** The smallest positive launch time, `None` when there is none (the
      `min` of an empty generator raises). */
  function MinPositiveLaunch(ps: seq<Project>): (m: Option<int>)
    ensures m.None? <==> forall i :: 0 <= i < |ps| ==> ps[i].calLaunchedAt <= 0
    ensures m.Some? ==> m.value > 0
    ensures m.Some? ==> forall i :: 0 <= i < |ps| && ps[i].calLaunchedAt > 0 ==> m.value <= ps[i].calLaunchedAt
    ensures m.Some? ==> exists i :: 0 <= i < |ps| && m.value == ps[i].calLaunchedAt
  {
    if ps == [] then None
    else
      var m := MinPositiveLaunch(ps[..|ps| - 1]);
      var t := ps[|ps| - 1].calLaunchedAt;
      if t <= 0 then m
      else if m.None? || t < m.value then Some(t)
      else m
  }

  /** The period bounds of `calculate_metrics`: the given pair, or else the
      range found in the data; `None` where the code raises (no projects to
      take a range from, or no positive launch time). */
  function Bounds(cf: seq<Project>, start: Option<int>, end: Option<int>): (r: Option<(int, int)>)
    ensures start.Some? && end.Some? ==> r == Some((start.value, end.value))
    ensures !(start.Some? && end.Some?) && cf != [] && MinLaunch(cf) > 0 ==>
              r == Some((MinLaunch(cf), MaxDeadline(cf)))
    ensures !(start.Some? && end.Some?) && cf != [] && MinLaunch(cf) <= 0 ==>
              r == (if MinPositiveLaunch(cf).Some? then Some((MinPositiveLaunch(cf).value, MaxDeadline(cf))) else None)
    ensures !(start.Some? && end.Some?) && cf == [] ==> r.None?
  {
    if start.Some? && end.Some? then Some((start.value, end.value))
    else if cf == [] then None
    else if MinLaunch(cf) > 0 then Some((MinLaunch(cf), MaxDeadline(cf)))
    else match MinPositiveLaunch(cf)
      case None => None
      case Some(s) => Some((s, MaxDeadline(cf)))
  }

  /** Without a window the start is the earliest positive launch and the
      end the latest deadline of the data. */
  lemma DefaultBounds(cf: seq<Project>)
    requires Bounds(cf, None, None).Some?
    ensures var (s, e) := Bounds(cf, None, None).value;
            && s > 0
            && (forall i :: 0 <= i < |cf| && cf[i].calLaunchedAt > 0 ==> s <= cf[i].calLaunchedAt)
            && (exists i :: 0 <= i < |cf| && s == cf[i].calLaunchedAt)
            && (forall i :: 0 <= i < |cf| ==> cf[i].calDeadline <= e)
            && (exists i :: 0 <= i < |cf| && e == cf[i].calDeadline)
  {
  }

  // ---------------------------------------------------------------------
  // Metrics

  datatype Metrics = Metrics(
    start: int,
    end: int,
    totalProjects: nat,
    totalFunds: real,
    successfulProjects: nat,
    successRate: real)

  /** The projects `calculate_metrics` counts: those of the category and,
      when a window is given, with a deadline in it. */
  function InScope(ps: seq<Project>, start: Option<int>, end: Option<int>, category: string): seq<Project>
  {
    var cf := CategoryFiltered(ps, category);
    if start.Some? && end.Some? then WindowFiltered(cf, start.value, end.value) else cf
  }

  /** `calculate_metrics` of `row1_analysis.py` (and the common part of the
      one in `row1+2_analysis.py`); `None` where it raises. */
  function CalculateMetrics(ps: seq<Project>, start: Option<int>, end: Option<int>, category: string): (r: Option<Metrics>)
    ensures r.Some? <==> Bounds(CategoryFiltered(ps, category), start, end).Some?
    ensures r.Some? ==> r.value.successfulProjects <= r.value.totalProjects
    ensures r.Some? ==> 0.0 <= r.value.successRate <= 100.0
    ensures r.Some? && start.Some? && end.Some? ==>
              r.value.totalProjects == |WindowFiltered(CategoryFiltered(ps, category), start.value, end.value)|
    ensures r.Some? && !(start.Some? && end.Some?) ==>
              r.value.totalProjects == |CategoryFiltered(ps, category)|
    ensures r.Some? ==>
              (r.value.start, r.value.end) == Bounds(CategoryFiltered(ps, category), start, end).value
    ensures r.Some? ==>
              var f := InScope(ps, start, end, category);
              && r.value.totalFunds == TotalFunds(f)
              && r.value.successfulProjects == Successful(f)
    ensures r.Some? ==>
              && r.value.successfulProjects <= r.value.totalProjects
              && r.value.successRate == SuccessRate(r.value.successfulProjects, r.value.totalProjects)
  {
    var cf := CategoryFiltered(ps, category);
    var filtered := InScope(ps, start, end, category);
    var b := Bounds(cf, start, end);
    if b.None? then None
    else
      var successful := Successful(filtered);
      var total := |filtered|;
      var rate := SuccessRate(successful, total);
      Some(Metrics(b.value.0, b.value.1, total, TotalFunds(filtered), successful, rate))
  }

  /** With a window, a project counts exactly when its category matches
      and its deadline lies in the window, both ends included. */
  lemma WindowMembership(ps: seq<Project>, start: int, end: int, category: string, p: Project)
    ensures p in WindowFiltered(CategoryFiltered(ps, category), start, end) <==>
              p in ps && CategoryMatches(category, p) && start <= p.calDeadline <= end
  {
  }

  // ---------------------------------------------------------------------
  // Percentage change

  /** A change in percent, or `float('inf')`. */
  datatype Change = Infinite | Finite(percent: real)

  function PercentageChange(recent: real, previous: real): (c: Change)
    ensures c.Infinite? <==> previous == 0.0 && recent > 0.0
    ensures previous == 0.0 && recent <= 0.0 ==> c == Finite(0.0)
  {
    if previous == 0.0 then (if recent > 0.0 then Infinite else Finite(0.0))
    else Finite((recent - previous) / previous * 100.0)
  }

  /** The finite change undoes itself: growing `previous` by the reported
      percentage gives back `recent`. */
  lemma PercentageChangeInverse(recent: real, previous: real)
    requires previous != 0.0
    ensures PercentageChange(recent, previous).Finite?
    ensures previous * (1.0 + PercentageChange(recent, previous).percent / 100.0) == recent
  {
    var q := (recent - previous) / previous;
    assert q * previous == recent - previous;
  }

  /** No change reports 0 %, and growth is reported as a positive change. */
  lemma PercentageChangeSign(recent: real, previous: real)
    requires previous > 0.0
    ensures PercentageChange(recent, previous).Finite?
    ensures PercentageChange(recent, previous).percent > 0.0 <==> recent > previous
    ensures PercentageChange(recent, previous).percent == 0.0 <==> recent == previous
  {
  }

  // ---------------------------------------------------------------------
  // Windows

  /** `recent_start` and `previous_start` for a period of `days` days
      ending at `endDate`. */
  function RecentStart(endDate: int, days: int): int
  {
    endDate - days * SecondsPerDay
  }

  function PreviousStart(endDate: int, days: int): int
  {
    RecentStart(endDate, days) - days * SecondsPerDay
  }

  /** The recent window is `[END - d, END]` and the previous one
      `[END - 2d, END - d]`; a deadline exactly at `END - d` lies in both. */
  lemma WindowsShareBoundary(endDate: int, days: int, p: Project)
    requires days >= 0
    requires p.calDeadline == endDate - days * SecondsPerDay
    ensures InWindow(RecentStart(endDate, days), endDate, p)
    ensures InWindow(PreviousStart(endDate, days), RecentStart(endDate, days), p)
  {
  }

  /** Apart from that boundary the two windows do not overlap. */
  lemma WindowsDisjoint(endDate: int, days: int, p: Project)
    requires InWindow(RecentStart(endDate, days), endDate, p)
    requires InWindow(PreviousStart(endDate, days), RecentStart(endDate, days), p)
    ensures p.calDeadline == endDate - days * SecondsPerDay
  {
  }

  // ---------------------------------------------------------------------
  // Category breakdown (`row1+2_analysis.py`)

  /** One entry of `get_category_metrics`. */
  datatype Group = Group(name: string, totalProjects: nat, totalFunds: real, successfulProjects: nat)

  /** The grouping key: the subcategory or the category. */
  function KeyOf(p: Project, bySubcategory: bool): string
  {
    if bySubcategory then p.subcategory else p.category
  }

  function Counted(g: Group, p: Project): Group
  {
    Group(g.name, g.totalProjects + 1, g.totalFunds + p.pledgedUsd,
          g.successfulProjects + (if p.state == "successful" then 1 else 0))
  }

  /** Adds `p` to the group `name`, creating it at the end on first sight
      (a `defaultdict` keeps insertion order). */
  function AddTo(gs: seq<Group>, name: string, p: Project): (r: seq<Group>)
    ensures |r| == |gs| || |r| == |gs| + 1
  {
    if gs == [] then [Counted(Group(name, 0, 0.0, 0), p)]
    else if gs[0].name == name then [Counted(gs[0], p)] + gs[1..]
    else [gs[0]] + AddTo(gs[1..], name, p)
  }

  /** `get_category_metrics`. */
  function Breakdown(ps: seq<Project>, start: int, end: int, bySubcategory: bool): seq<Group>
  {
    if ps == [] then []
    else
      var gs := Breakdown(ps[..|ps| - 1], start, end, bySubcategory);
      var p := ps[|ps| - 1];
      if InWindow(start, end, p) then AddTo(gs, KeyOf(p, bySubcategory), p) else gs
  }

  /** The keys of the projects in the window, in input order: the reference
      the breakdown is checked against. */
  function WindowKeys(ps: seq<Project>, start: int, end: int, bySubcategory: bool): seq<string>
  {
    if ps == [] then []
    else
      var p := ps[|ps| - 1];
      WindowKeys(ps[..|ps| - 1], start, end, bySubcategory)
        + (if InWindow(start, end, p) then [KeyOf(p, bySubcategory)] else [])
  }

  /** Names are distinct and every group is consistent. */
  predicate WellFormed(gs: seq<Group>)
  {
    && (forall i, j :: 0 <= i < j < |gs| ==> gs[i].name != gs[j].name)
    && (forall i :: 0 <= i < |gs| ==> gs[i].successfulProjects <= gs[i].totalProjects)
  }

  /** Projects counted under `name`, 0 when there is no such group. */
  function CountFor(gs: seq<Group>, name: string): nat
  {
    if gs == [] then 0
    else (if gs[0].name == name then gs[0].totalProjects else 0) + CountFor(gs[1..], name)
  }

  function TotalCount(gs: seq<Group>): nat
  {
    if gs == [] then 0 else gs[0].totalProjects + TotalCount(gs[1..])
  }

  lemma {:induction false} AddToNames(gs: seq<Group>, name: string, p: Project)
    ensures Names(AddTo(gs, name, p)) == Names(gs) + {name}
  {
    if gs == [] {
      NamesCons(Counted(Group(name, 0, 0.0, 0), p), []);
      assert AddTo(gs, name, p) == [Counted(Group(name, 0, 0.0, 0), p)] + [];
    } else {
      NamesCons(gs[0], gs[1..]);
      assert gs == [gs[0]] + gs[1..];
      if gs[0].name == name {
        NamesCons(Counted(gs[0], p), gs[1..]);
        assert AddTo(gs, name, p) == [Counted(gs[0], p)] + gs[1..];
      } else {
        AddToNames(gs[1..], name, p);
        NamesCons(gs[0], AddTo(gs[1..], name, p));
      }
    }
  }

  lemma {:induction false} AddToWellFormed(gs: seq<Group>, name: string, p: Project)
    requires WellFormed(gs)
    ensures WellFormed(AddTo(gs, name, p))
    ensures TotalCount(AddTo(gs, name, p)) == TotalCount(gs) + 1
  {
    if gs != [] && gs[0].name != name {
      AddToWellFormed(gs[1..], name, p);
      AddToNames(gs[1..], name, p);
      var r := AddTo(gs[1..], name, p);
      forall j | 0 <= j < |r| ensures gs[0].name != r[j].name {
        assert r[j].name in Names(r);
        if r[j].name in Names(gs[1..]) {
          var k :| 0 <= k < |gs[1..]| && gs[1..][k].name == r[j].name;
          assert gs[k + 1].name == r[j].name;
        }
      }
    }
  }

  function Names(gs: seq<Group>): (r: set<string>)
    ensures forall j :: 0 <= j < |gs| ==> gs[j].name in r
    ensures forall n :: n in r ==> exists j :: 0 <= j < |gs| && gs[j].name == n
  {
    set j | 0 <= j < |gs| :: gs[j].name
  }

  lemma NamesCons(g: Group, gs: seq<Group>)
    ensures Names([g] + gs) == {g.name} + Names(gs)
  {
    var r := [g] + gs;
    assert r[0] == g;
    assert g.name in Names(r);
    forall n | n in Names(r) ensures n in {g.name} + Names(gs) {
      var j :| 0 <= j < |r| && r[j].name == n;
      if j > 0 { assert r[j] == gs[j - 1]; }
    }
    forall n | n in Names(gs) ensures n in Names(r) {
      var j :| 0 <= j < |gs| && gs[j].name == n;
      assert r[j + 1] == gs[j];
    }
  }

  lemma {:induction false} AddToCount(gs: seq<Group>, name: string, p: Project, n: string)
    requires WellFormed(gs)
    ensures CountFor(AddTo(gs, name, p), n) == CountFor(gs, n) + (if n == name then 1 else 0)
  {
    if gs != [] && gs[0].name != name {
      AddToCount(gs[1..], name, p, n);
    } else if gs != [] {
      CountForAbsent(gs[1..], name);
    }
  }

  /** A name without a group counts nothing. */
  lemma {:induction false} CountForAbsent(gs: seq<Group>, name: string)
    requires forall j :: 0 <= j < |gs| ==> gs[j].name != name
    ensures CountFor(gs, name) == 0
  {
    if gs != [] {
      CountForAbsent(gs[1..], name);
    }
  }

  /** The breakdown groups the in-window projects: names are distinct,
      successful never exceeds total, the group of each name counts the
      in-window projects with that key, and the totals add up to the number
      of in-window projects. */
  lemma {:induction false} BreakdownCounts(ps: seq<Project>, start: int, end: int, bySubcategory: bool, n: string)
    ensures WellFormed(Breakdown(ps, start, end, bySubcategory))
    ensures CountFor(Breakdown(ps, start, end, bySubcategory), n) == Occurrences(WindowKeys(ps, start, end, bySubcategory), n)
    ensures TotalCount(Breakdown(ps, start, end, bySubcategory)) == |WindowKeys(ps, start, end, bySubcategory)|
  {
    if ps != [] {
      var init := ps[..|ps| - 1];
      var p := ps[|ps| - 1];
      BreakdownCounts(init, start, end, bySubcategory, n);
      var gs := Breakdown(init, start, end, bySubcategory);
      var keys := WindowKeys(init, start, end, bySubcategory);
      if InWindow(start, end, p) {
        AddToWellFormed(gs, KeyOf(p, bySubcategory), p);
        AddToCount(gs, KeyOf(p, bySubcategory), p, n);
        OccurrencesAppend(keys, KeyOf(p, bySubcategory), n);
      } else {
        assert WindowKeys(ps, start, end, bySubcategory) == keys + [];
        assert keys + [] == keys;
      }
    }
  }

  /** The number of keys in the window is the number of projects in it. */
  lemma {:induction false} WindowKeysCount(ps: seq<Project>, start: int, end: int, bySubcategory: bool)
    ensures |WindowKeys(ps, start, end, bySubcategory)| == |WindowFiltered(ps, start, end)|
  {
    if ps != [] {
      WindowKeysCount(ps[..|ps| - 1], start, end, bySubcategory);
    }
  }

  // ---------------------------------------------------------------------
  // Top five

  /** What the breakdown is ranked by: funds, or the number of projects. */
  datatype SortBy = Projects | Funds

  function RankKey(rank: SortBy): Group -> real
  {
    (g: Group) => if rank == Funds then g.totalFunds else g.totalProjects as real
  }

  /** One displayed row: the group, its success rate and its growth
      against the same name in the previous period. */
  datatype TopRow = TopRow(group: Group, successRate: real, growth: Change)

  /** Entry `j` is the last one named `name`. */
  predicate LastNamed(previous: seq<Group>, j: int, name: string)
  {
    0 <= j < |previous| && previous[j].name == name
    && forall k :: j < k < |previous| ==> previous[k].name != name
  }

  /** `prev_lookup.get(name, zeros)`; the last entry of a name wins. */
  function PreviousOf(previous: seq<Group>, name: string): (g: Group)
    ensures g.name == name || g == Group(name, 0, 0.0, 0)
    ensures (forall j :: 0 <= j < |previous| ==> previous[j].name != name) ==> g == Group(name, 0, 0.0, 0)
    ensures (exists j :: 0 <= j < |previous| && previous[j].name == name) ==>
              exists j :: LastNamed(previous, j, name) && g == previous[j]
  {
    if previous == [] then Group(name, 0, 0.0, 0)
    else
      var n := |previous| - 1;
      if previous[n].name == name then
        assert LastNamed(previous, n, name);
        previous[n]
      else
        var init := previous[..n];
        var g := PreviousOf(init, name);
        assert forall j :: 0 <= j < n ==> init[j] == previous[j];
        assert (exists j :: 0 <= j < |previous| && previous[j].name == name) ==>
               exists j :: LastNamed(previous, j, name) && g == previous[j] by {
          if exists j :: 0 <= j < |previous| && previous[j].name == name {
            var i :| 0 <= i < |previous| && previous[i].name == name;
            assert init[i].name == name;
            var j :| LastNamed(init, j, name) && g == init[j];
            assert LastNamed(previous, j, name);
          }
        }
        g
  }

  /** The first `min(5, n)` entries. */
  function TakeFive<T>(v: seq<T>): (r: seq<T>)
    ensures |r| <= 5 && r <= v
    ensures |v| <= 5 ==> r == v
  {
    if |v| <= 5 then v else v[..5]
  }

  /** The groups of the displayed rows. */
  function Groups(r: seq<TopRow>): (gs: seq<Group>)
    ensures |gs| == |r| && forall i :: 0 <= i < |r| ==> gs[i] == r[i].group
  {
    seq(|r|, i requires 0 <= i < |r| => r[i].group)
  }

  /** `display_category_breakdown` without the printing: the five groups
      ranked highest (all of them when there are fewer), highest first,
      each with its row. */
  function TopFive(recent: seq<Group>, previous: seq<Group>, rank: SortBy): (r: seq<TopRow>)
    requires WellFormed(recent)
    ensures |r| == if |recent| < 5 then |recent| else 5
    ensures forall i, j :: 0 <= i < j < |r| ==> RankKey(rank)(r[i].group) >= RankKey(rank)(r[j].group)
    ensures forall i :: 0 <= i < |r| ==> r[i].group in recent && r[i] == Row(r[i].group, previous, rank)
    ensures multiset(Groups(r)) <= multiset(recent)
    ensures forall g, i :: g in recent && g !in Groups(r) && 0 <= i < |r| ==>
              RankKey(rank)(g) <= RankKey(rank)(r[i].group)
  {
    var key := RankKey(rank);
    var sorted := SortDesc(recent, key);
    SortDescMembers(recent, key);
    var top := TakeFive(sorted);
    var r := seq(|top|, i requires 0 <= i < |top| => Row(top[i], previous, rank));
    assert Groups(r) == top;
    TopIsHighest(recent, sorted, top, key);
    r
  }

  /** A prefix of a descending permutation holds part of the input, and
      every member outside it ranks at or below every member in it. */
  lemma TopIsHighest(recent: seq<Group>, sorted: seq<Group>, top: seq<Group>, key: Group -> real)
    requires multiset(sorted) == multiset(recent) && Descending(sorted, key)
    requires top <= sorted
    ensures multiset(top) <= multiset(recent)
    ensures forall g, i :: g in recent && g !in top && 0 <= i < |top| ==> key(g) <= key(top[i])
  {
    assert sorted == top + sorted[|top|..];
    forall g, i | g in recent && g !in top && 0 <= i < |top| ensures key(g) <= key(top[i]) {
      assert g in multiset(sorted);
      var j :| 0 <= j < |sorted| && sorted[j] == g;
      assert j >= |top|;
      assert top[i] == sorted[i];
    }
  }

  function Row(g: Group, previous: seq<Group>, rank: SortBy): (r: TopRow)
    ensures r.group == g
  {
    var rate := if g.successfulProjects <= g.totalProjects then SuccessRate(g.successfulProjects, g.totalProjects) else 0.0;
    TopRow(g, rate, PercentageChange(RankKey(rank)(g), RankKey(rank)(PreviousOf(previous, g.name))))
  }

  /** A name missing from the previous period is compared against zeros:
      its growth is infinite when it has any funds or projects, else 0 %. */
  lemma NewNameGrowth(g: Group, previous: seq<Group>, rank: SortBy)
    requires forall j :: 0 <= j < |previous| ==> previous[j].name != g.name
    ensures Row(g, previous, rank).growth == (if RankKey(rank)(g) > 0.0 then Infinite else Finite(0.0))
  {
    assert PreviousOf(previous, g.name) == Group(g.name, 0, 0.0, 0);
  }

  // ---------------------------------------------------------------------
  // The two-window analysis

  datatype Comparison = Comparison(
    recent: Metrics,
    previous: Metrics,
    projectsChange: Change,
    fundsChange: Change,
    successfulChange: Change,
    rateChange: Change)

  /** The windowed branch of `analyze_projects` in `row1_analysis.py`. */
  function CompareWindows(ps: seq<Project>, category: string, endDate: int, days: int): (r: Comparison)
    ensures r.recent.start == RecentStart(endDate, days) && r.recent.end == endDate
    ensures r.previous.start == PreviousStart(endDate, days) && r.previous.end == RecentStart(endDate, days)
    ensures r.recent.totalProjects ==
              |WindowFiltered(CategoryFiltered(ps, category), RecentStart(endDate, days), endDate)|
    ensures r.previous.totalProjects ==
              |WindowFiltered(CategoryFiltered(ps, category), PreviousStart(endDate, days), RecentStart(endDate, days))|
    ensures r.projectsChange.Infinite? <==> r.previous.totalProjects == 0 && r.recent.totalProjects > 0
    ensures var m := CalculateMetrics(ps, Some(RecentStart(endDate, days)), Some(endDate), category);
            m.Some? && r.recent == m.value
    ensures var m := CalculateMetrics(ps, Some(PreviousStart(endDate, days)), Some(RecentStart(endDate, days)), category);
            m.Some? && r.previous == m.value
    ensures r.projectsChange == PercentageChange(r.recent.totalProjects as real, r.previous.totalProjects as real)
    ensures r.fundsChange == PercentageChange(r.recent.totalFunds, r.previous.totalFunds)
    ensures r.successfulChange == PercentageChange(r.recent.successfulProjects as real, r.previous.successfulProjects as real)
    ensures r.rateChange == PercentageChange(r.recent.successRate, r.previous.successRate)
  {
    var recentStart := RecentStart(endDate, days);
    var recent := CalculateMetrics(ps, Some(recentStart), Some(endDate), category).value;
    var previous := CalculateMetrics(ps, Some(PreviousStart(endDate, days)), Some(recentStart), category).value;
    Comparison(recent, previous,
      PercentageChange(recent.totalProjects as real, previous.totalProjects as real),
      PercentageChange(recent.totalFunds, previous.totalFunds),
      PercentageChange(recent.successfulProjects as real, previous.successfulProjects as real),
      PercentageChange(recent.successRate, previous.successRate))
  }

  /** The breakdowns of `row1+2_analysis.py` for the two windows, grouped
      by subcategory when a category is chosen, and the top five when both
      are non-empty. */
  function CompareBreakdowns(ps: seq<Project>, category: string, endDate: int, days: int, rank: SortBy): (r: Option<seq<TopRow>>)
    ensures r.Some? ==> |r.value| <= 5
    ensures var cf := CategoryFiltered(ps, category);
            (|WindowFiltered(cf, RecentStart(endDate, days), endDate)| > 0
             && |WindowFiltered(cf, PreviousStart(endDate, days), RecentStart(endDate, days))| > 0)
            ==> r.Some?
    ensures var cf := CategoryFiltered(ps, category);
            var recent := Breakdown(cf, RecentStart(endDate, days), endDate, category != "N/A");
            var previous := Breakdown(cf, PreviousStart(endDate, days), RecentStart(endDate, days), category != "N/A");
            && (r.Some? <==> recent != [] && previous != [])
            && (r.Some? ==> WellFormed(recent) && r.value == TopFive(recent, previous, rank))
  {
    var cf := CategoryFiltered(ps, category);
    var bySub := category != "N/A";
    var recentStart := RecentStart(endDate, days);
    var recent := Breakdown(cf, recentStart, endDate, bySub);
    var previous := Breakdown(cf, PreviousStart(endDate, days), recentStart, bySub);
    BreakdownCounts(cf, recentStart, endDate, bySub, "");
    BreakdownCounts(cf, PreviousStart(endDate, days), recentStart, bySub, "");
    WindowKeysCount(cf, recentStart, endDate, bySub);
    WindowKeysCount(cf, PreviousStart(endDate, days), recentStart, bySub);
    if recent != [] && previous != [] then Some(TopFive(recent, previous, rank)) else None
  }
}
