/** The category and country counter of the dataset survey
    (`test/analyze_categories_countries.py`, `CategoryAnalyzer`). Counters
    keep their keys in first-seen order, as Python dictionaries do. */
module CategoryCounts {
  import opened Common

  const Unknown: string := "Unknown"

  /** The parts of a raw project the counter reads. */
  datatype CategoryInfo = CategoryInfo(name: Option<string>)
  datatype Info = Info(category: Option<CategoryInfo>, country: Option<string>)
  datatype Input = Input(data: Option<Info>)

  /** One key of a counter with its count. */
  datatype Tally = Tally(key: string, count: nat)

  function KeysOf(c: seq<Tally>): (r: set<string>)
    ensures forall i :: 0 <= i < |c| ==> c[i].key in r
    ensures forall k :: k in r ==> exists i :: 0 <= i < |c| && c[i].key == k
  {
    set i | 0 <= i < |c| :: c[i].key
  }

  /** The count under `k`, 0 when absent (a `defaultdict(int)` read). */
  function CountIn(c: seq<Tally>, k: string): nat
  {
    if c == [] then 0 else (if c[0].key == k then c[0].count else 0) + CountIn(c[1..], k)
  }

  function Total(c: seq<Tally>): nat
  {
    if c == [] then 0 else c[0].count + Total(c[1..])
  }

  /** `counter[k] += 1`: a new key is appended with count 1. */
  function Tick(c: seq<Tally>, k: string): seq<Tally>
  {
    if c == [] then [Tally(k, 1)]
    else if c[0].key == k then [Tally(k, c[0].count + 1)] + c[1..]
    else [c[0]] + Tick(c[1..], k)
  }

  lemma KeysCons(t: Tally, c: seq<Tally>)
    ensures KeysOf([t] + c) == {t.key} + KeysOf(c)
  {
    var r := [t] + c;
    assert r[0] == t;
    forall k | k in KeysOf(r) ensures k in {t.key} + KeysOf(c) {
      var i :| 0 <= i < |r| && r[i].key == k;
      if i > 0 { assert r[i] == c[i - 1]; }
    }
    forall k | k in KeysOf(c) ensures k in KeysOf(r) {
      var i :| 0 <= i < |c| && c[i].key == k;
      assert r[i + 1] == c[i];
    }
  }

  lemma {:induction false} TickTotal(c: seq<Tally>, k: string)
    ensures Total(Tick(c, k)) == Total(c) + 1
  {
    if c != [] && c[0].key != k {
      TickTotal(c[1..], k);
    }
  }

  lemma {:induction false} TickCount(c: seq<Tally>, k: string, j: string)
    ensures CountIn(Tick(c, k), j) == CountIn(c, j) + (if j == k then 1 else 0)
  {
    if c != [] && c[0].key != k {
      TickCount(c[1..], k, j);
    }
  }

  lemma {:induction false} TickKeys(c: seq<Tally>, k: string)
    ensures KeysOf(Tick(c, k)) == KeysOf(c) + {k}
  {
    if c == [] {
      KeysCons(Tally(k, 1), []);
      assert Tick(c, k) == [Tally(k, 1)] + [];
    } else {
      KeysCons(c[0], c[1..]);
      assert c == [c[0]] + c[1..];
      if c[0].key == k {
        KeysCons(Tally(k, c[0].count + 1), c[1..]);
      } else {
        TickKeys(c[1..], k);
        KeysCons(c[0], Tick(c[1..], k));
      }
    }
  }

  /** A tick adds one to the key's count and to the total, leaves every
      other count alone, and adds the key to the key set. */
  lemma TickEffect(c: seq<Tally>, k: string, j: string)
    ensures Total(Tick(c, k)) == Total(c) + 1
    ensures CountIn(Tick(c, k), j) == CountIn(c, j) + (if j == k then 1 else 0)
    ensures KeysOf(Tick(c, k)) == KeysOf(c) + {k}
  {
    TickTotal(c, k);
    TickCount(c, k, j);
    TickKeys(c, k);
  }

  /** The analyser's state. */
  datatype Analyzer = Analyzer(
    categories: seq<Tally>,
    countries: set<string>,
    countryCounts: seq<Tally>,
    totalProjects: nat)

  const Fresh: Analyzer := Analyzer([], {}, [], 0)

  /** The invariant `__init__` sets up and every processed project keeps:
      both counters add up to the number of projects and the country set
      is the key set of the country counter. */
  predicate Valid(a: Analyzer)
  {
    && Total(a.categories) == a.totalProjects
    && Total(a.countryCounts) == a.totalProjects
    && a.countries == KeysOf(a.countryCounts)
  }

  /** The category name a project counts under, `Unknown` when missing. */
  function CategoryName(p: Input): string
  {
    match p.data
    case None => Unknown
    case Some(d) =>
      match d.category
      case None => Unknown
      case Some(c) => c.name.GetOr(Unknown)
  }

  /** The country a project counts under, `Unknown` when missing. */
  function Country(p: Input): string
  {
    match p.data
    case None => Unknown
    case Some(d) => d.country.GetOr(Unknown)
  }

  /** `process_project`. */
  function ProcessProject(a: Analyzer, p: Input): (r: Analyzer)
    ensures r.totalProjects == a.totalProjects + 1
    ensures r.countries == a.countries + {Country(p)}
  {
    Analyzer(Tick(a.categories, CategoryName(p)), a.countries + {Country(p)},
             Tick(a.countryCounts, Country(p)), a.totalProjects + 1)
  }

  /** Each project adds one to exactly one category count and one country
      count, and the invariant is kept. */
  lemma ProcessProjectKeeps(a: Analyzer, p: Input, k: string)
    requires Valid(a)
    ensures Valid(ProcessProject(a, p))
    ensures CountIn(ProcessProject(a, p).categories, k) ==
              CountIn(a.categories, k) + (if k == CategoryName(p) then 1 else 0)
    ensures CountIn(ProcessProject(a, p).countryCounts, k) ==
              CountIn(a.countryCounts, k) + (if k == Country(p) then 1 else 0)
  {
    TickEffect(a.categories, CategoryName(p), k);
    TickEffect(a.countryCounts, Country(p), k);
  }

  /** All projects, in order. */
  function ProcessAll(ps: seq<Input>): Analyzer
  {
    if ps == [] then Fresh else ProcessProject(ProcessAll(ps[..|ps| - 1]), ps[|ps| - 1])
  }

  function CategoryNames(ps: seq<Input>): (r: seq<string>)
    ensures |r| == |ps| && forall i :: 0 <= i < |ps| ==> r[i] == CategoryName(ps[i])
  {
    seq(|ps|, i requires 0 <= i < |ps| => CategoryName(ps[i]))
  }

  function Countries(ps: seq<Input>): (r: seq<string>)
    ensures |r| == |ps| && forall i :: 0 <= i < |ps| ==> r[i] == Country(ps[i])
  {
    seq(|ps|, i requires 0 <= i < |ps| => Country(ps[i]))
  }

  lemma NamesSnoc(ps: seq<Input>)
    requires ps != []
    ensures CategoryNames(ps) == CategoryNames(ps[..|ps| - 1]) + [CategoryName(ps[|ps| - 1])]
    ensures Countries(ps) == Countries(ps[..|ps| - 1]) + [Country(ps[|ps| - 1])]
  {
  }

  /** After all projects the invariant holds, the total is the number of
      projects, and each count is the number of projects with that name. */
  lemma {:induction false} ProcessAllCounts(ps: seq<Input>, k: string)
    ensures Valid(ProcessAll(ps))
    ensures ProcessAll(ps).totalProjects == |ps|
    ensures CountIn(ProcessAll(ps).categories, k) == Occurrences(CategoryNames(ps), k)
    ensures CountIn(ProcessAll(ps).countryCounts, k) == Occurrences(Countries(ps), k)
  {
    if ps != [] {
      var init := ps[..|ps| - 1];
      var p := ps[|ps| - 1];
      var a := ProcessAll(init);
      ProcessAllCounts(init, k);
      ProcessProjectKeeps(a, p, k);
      assert ProcessAll(ps) == ProcessProject(a, p);
      NamesSnoc(ps);
      OccurrencesAppend(CategoryNames(init), CategoryName(p), k);
      OccurrencesAppend(Countries(init), Country(p), k);
    }
  }
}
