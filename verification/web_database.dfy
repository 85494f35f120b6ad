/** The web-record normaliser (`Tools/make_WebDatabase.py`): turns a raw
    record into the flat record the web database and every later analysis
    reads, with amounts converted to US dollars, the category slug split,
    dates rendered `dd/mm/yyyy` and a whole-day campaign duration. */
module WebDatabase {
  import opened Common
  import opened Text
  import opened Raw
  import opened Dates
  import StateFilter

  /** States the normaliser drops. This set differs from the outcome
      filter's: suspended records are not dropped here. */
  const ExcludedStates: set<string> := {"submitted", "live", "started"}

  const SecondsPerDay: int := 86400

  /** Renders epoch seconds as a calendar date in the machine's time zone;
      `None` where the conversion fails. */
  type Calendar = int -> Option<Date>

  /** One record of the web database. `creatorId` is what a reader's
      `get("creator_id")` sees: the normaliser writes no such key, so it is
      `None` in every record it writes, and only the corrected record
      (`NormaliseWithCreator`) fills it in. */
  datatype WebRecord = WebRecord(
    id: Option<int>,
    state: string,
    name: Option<string>,
    blurb: Option<string>,
    category: string,
    subcategory: string,
    country: Option<string>,
    location: Option<string>,
    goalUsd: real,
    pledgedUsd: real,
    backersCount: int,
    currency: Option<string>,
    calLaunchedAt: Option<int>,
    calDeadline: Option<int>,
    launchedAt: string,
    deadline: string,
    campaignDuration: int,
    percentFunded: real,
    pledgePerBacker: real,
    isStaffPick: bool,
    projectLink: Option<string>,
    creatorLink: Option<string>,
    creatorId: Option<int>)

  /** True when `x` is a whole number of hundredths. */
  predicate IsHundredths(x: real)
  {
    (x * 100.0).Floor as real == x * 100.0
  }

  /** The integer nearest to `y`, ties to the even one. */
  function RoundHalfEven(y: real): (n: int)
    ensures -0.5 <= n as real - y <= 0.5
    ensures n as real - y == 0.5 || n as real - y == -0.5 ==> n % 2 == 0
  {
    var f := y.Floor;
    var frac := y - f as real;
    if frac > 0.5 then f + 1
    else if frac < 0.5 then f
    else if f % 2 == 0 then f else f + 1
  }

  /** No integer is nearer to `y` than `RoundHalfEven(y)`. */
  lemma RoundHalfEvenNearest(y: real, m: int)
    ensures var d := RoundHalfEven(y) as real - y;
            var e := m as real - y;
            (if d < 0.0 then -d else d) <= (if e < 0.0 then -e else e)
  {
    var f := y.Floor;
    if m <= f {
      assert m as real <= f as real;
    } else {
      assert m as real >= f as real + 1.0;
    }
  }

  /** `round(x, 2)`: the nearest multiple of 0.01, ties to the even
      hundredth. */
  function Round2(x: real): (r: real)
    ensures IsHundredths(r)
    ensures -0.005 <= r - x <= 0.005
    ensures IsHundredths(x) ==> r == x
  {
    var n := RoundHalfEven(x * 100.0);
    assert (n as real / 100.0) * 100.0 == n as real;
    n as real / 100.0
  }

  /** `pledge_per_backer`: the rounded mean pledge, 0 without backers. */
  function PledgePerBacker(pledgedUsd: real, backers: int): (r: real)
    ensures backers == 0 ==> r == 0.0
    ensures backers != 0 ==> IsHundredths(r)
                             && -0.005 <= r - pledgedUsd / backers as real <= 0.005
  {
    if backers != 0 then Round2(pledgedUsd / backers as real) else 0.0
  }

  /** The parent category: the slug up to its first `/`, or `"unknown"`
      for an empty slug. */
  function ParentCategory(slug: string): (r: string)
    ensures slug == [] ==> r == "unknown"
    ensures slug != [] ==> '/' !in r && r <= slug && (r == slug || slug[|r|] == '/')
  {
    if slug != [] then Head(slug, '/') else "unknown"
  }

  /** A slug `parent/child` has parent category `parent`; a slug without
      `/` is its own parent category. */
  lemma ParentOfSlug(parent: string, child: string)
    requires '/' !in parent
    ensures parent != [] ==> ParentCategory(parent) == parent
    ensures ParentCategory(parent + "/" + child) == parent
  {
    var s := parent + "/" + child;
    var r := ParentCategory(s);
    assert s[|parent|] == '/';
    assert r == s[..|parent|];
  }

  /** A slug that starts with `/` has the empty parent category, not
      `"unknown"`. */
  lemma LeadingSlashSlug(child: string)
    ensures ParentCategory("/" + child) == ""
  {
    ParentOfSlug("", child);
  }

  /** `calculate_duration`: whole days from launch to deadline, rounded
      down (a day difference taken without daylight-saving shifts), or 0
      when the calendar cannot convert either timestamp. */
  function DurationDays(cal: Calendar, launched: int, deadline: int): (r: int)
    ensures cal(launched).None? || cal(deadline).None? ==> r == 0
    ensures cal(launched).Some? && cal(deadline).Some? ==>
              SecondsPerDay * r <= deadline - launched < SecondsPerDay * (r + 1)
  {
    if cal(launched).None? || cal(deadline).None? then 0
    else (deadline - launched) / SecondsPerDay
  }

  /** `format_date`: `dd/mm/yyyy`, or `""` for an absent timestamp or one
      the calendar cannot render. */
  function FormatTimestamp(cal: Calendar, t: Option<int>): (r: string)
    ensures t.None? ==> r == []
    ensures r == [] || (t.Some? && cal(t.value).Some? && ParseDate(r) == Some(cal(t.value).value))
    ensures r != [] <==> t.Some? && cal(t.value).Some? && Valid(cal(t.value).value)
    ensures r != [] ==> r == FormatDate(cal(t.value).value)
  {
    if t.None? then ""
    else
      var c := cal(t.value);
      if c.Some? && Valid(c.value) then
        ParseFormat(c.value);
        FormatDate(c.value)
      else ""
  }

  /** The lower-cased state, with an absent state read as `""`. */
  function StateOf(d: Data): string
  {
    Lower(d.state.GetOr(""))
  }

  function SlugOf(d: Data): string
  {
    if d.category.Some? then d.category.value.slug.GetOr("") else ""
  }

  /** The record written for a raw record the normaliser keeps. */
  function Normalise(d: Data, cal: Calendar): (w: WebRecord)
    ensures w.creatorId.None?
    ensures w.state == StateOf(d)
    ensures w.id == d.id && w.name == d.name && w.blurb == d.blurb
    ensures w.goalUsd == d.goal.GetOr(0.0) * d.staticUsdRate.GetOr(1.0)
    ensures w.pledgedUsd == d.pledged.GetOr(0.0) * d.staticUsdRate.GetOr(1.0)
    ensures w.backersCount == d.backersCount.GetOr(0)
    ensures w.subcategory == SlugOf(d) && w.category == ParentCategory(SlugOf(d))
    ensures w.calLaunchedAt == d.launchedAt && w.calDeadline == d.deadline
    ensures w.campaignDuration == DurationDays(cal, d.launchedAt.GetOr(0), d.deadline.GetOr(0))
    ensures w.backersCount == 0 ==> w.pledgePerBacker == 0.0
    ensures w.pledgePerBacker == PledgePerBacker(w.pledgedUsd, w.backersCount)
    ensures w.launchedAt == FormatTimestamp(cal, d.launchedAt)
    ensures w.deadline == FormatTimestamp(cal, d.deadline)
    ensures w.country == (if d.location.Some? then d.location.value.expandedCountry else None)
    ensures w.location == (if d.location.Some? then d.location.value.name else None)
    ensures w.percentFunded == d.percentFunded.GetOr(0.0) && w.currency == d.currency
    ensures w.isStaffPick == d.staffPick.GetOr(false) && w.projectLink == d.projectUrl
    ensures w.creatorLink == (if d.creator.Some? then d.creator.value.profileUrl else None)
  {
    var rate := d.staticUsdRate.GetOr(1.0);
    var goalUsd := d.goal.GetOr(0.0) * rate;
    var pledgedUsd := d.pledged.GetOr(0.0) * rate;
    var backers := d.backersCount.GetOr(0);
    var slug := SlugOf(d);
    WebRecord(
      id := d.id,
      state := StateOf(d),
      name := d.name,
      blurb := d.blurb,
      category := ParentCategory(slug),
      subcategory := slug,
      country := if d.location.Some? then d.location.value.expandedCountry else None,
      location := if d.location.Some? then d.location.value.name else None,
      goalUsd := goalUsd,
      pledgedUsd := pledgedUsd,
      backersCount := backers,
      currency := d.currency,
      calLaunchedAt := d.launchedAt,
      calDeadline := d.deadline,
      launchedAt := FormatTimestamp(cal, d.launchedAt),
      deadline := FormatTimestamp(cal, d.deadline),
      campaignDuration := DurationDays(cal, d.launchedAt.GetOr(0), d.deadline.GetOr(0)),
      percentFunded := d.percentFunded.GetOr(0.0),
      pledgePerBacker := PledgePerBacker(pledgedUsd, backers),
      isStaffPick := d.staffPick.GetOr(false),
      projectLink := d.projectUrl,
      creatorLink := if d.creator.Some? then d.creator.value.profileUrl else None,
      creatorId := None)
  }

  /** The corrected record: the written one with the raw creator's id,
      which the creator history selects earlier campaigns by. */
  function NormaliseWithCreator(d: Data, cal: Calendar): (w: WebRecord)
    ensures w.creatorId == (if d.creator.Some? then d.creator.value.id else None)
    ensures w.(creatorId := None) == Normalise(d, cal)
  {
    Normalise(d, cal).(creatorId := if d.creator.Some? then d.creator.value.id else None)
  }

  /** Statistics of one run. */
  datatype WebStats = WebStats(
    totalProcessed: nat, included: nat, excluded: nat,
    byState: map<string, nat>, excludedByState: map<string, nat>,
    byCategory: map<string, nat>, jsonDecodeErrors: nat)

  const NoStats := WebStats(0, 0, 0, map[], map[], map[], 0)

  /** `ProjectFormatter.process_project`: every record is counted under its
      state; a record in an excluded state yields nothing and is counted
      under `excludedByState`; any other record is normalised and counted
      under its parent category. */
  function ProcessProject(d: Data, cal: Calendar, st: WebStats): (r: (Option<WebRecord>, WebStats))
    ensures r.1.byState == Bump(st.byState, StateOf(d))
    ensures r.0.None? <==> StateOf(d) in ExcludedStates
    ensures r.0.None? ==> r.1 == st.(byState := r.1.byState,
                                     excludedByState := Bump(st.excludedByState, StateOf(d)))
    ensures r.0.Some? ==> r.0.value == Normalise(d, cal)
                          && r.1 == st.(byState := r.1.byState,
                                        byCategory := Bump(st.byCategory, r.0.value.category))
  {
    var state := StateOf(d);
    var st1 := st.(byState := Bump(st.byState, state));
    if state in ExcludedStates then
      (None, st1.(excludedByState := Bump(st.excludedByState, state)))
    else
      var w := Normalise(d, cal);
      (Some(w), st1.(byCategory := Bump(st.byCategory, w.category)))
  }

  /** The statistics and the records written so far. */
  datatype Run = Run(stats: WebStats, out: seq<WebRecord>)

  /** One line of `process_database`: an undecodable line counts as a
      decode error; a decoded one is processed and counted as included or
      excluded. */
  function Step(run: Run, line: Line, cal: Calendar): (r: Run)
    ensures r.stats.totalProcessed == run.stats.totalProcessed + 1
    ensures line.None? ==> r == Run(run.stats.(totalProcessed := r.stats.totalProcessed,
                                               jsonDecodeErrors := run.stats.jsonDecodeErrors + 1), run.out)
    ensures line.Some? ==> r.stats.jsonDecodeErrors == run.stats.jsonDecodeErrors
    ensures line.Some? ==> r.stats.byState == Bump(run.stats.byState, StateOf(line.value))
    ensures line.Some? && StateOf(line.value) in ExcludedStates ==>
              && r.out == run.out
              && r.stats.excluded == run.stats.excluded + 1 && r.stats.included == run.stats.included
              && r.stats.excludedByState == Bump(run.stats.excludedByState, StateOf(line.value))
              && r.stats.byCategory == run.stats.byCategory
    ensures line.Some? && StateOf(line.value) !in ExcludedStates ==>
              && r.out == run.out + [Normalise(line.value, cal)]
              && r.stats.included == run.stats.included + 1 && r.stats.excluded == run.stats.excluded
              && r.stats.excludedByState == run.stats.excludedByState
              && r.stats.byCategory == Bump(run.stats.byCategory, Normalise(line.value, cal).category)
  {
    var st1 := run.stats.(totalProcessed := run.stats.totalProcessed + 1);
    match line
    case None => Run(st1.(jsonDecodeErrors := run.stats.jsonDecodeErrors + 1), run.out)
    case Some(d) =>
      var (w, st2) := ProcessProject(d, cal, st1);
      if w.Some? then Run(st2.(included := st1.included + 1), run.out + [w.value])
      else Run(st2.(excluded := st1.excluded + 1), run.out)
  }

  /** `process_database` over all lines. */
  function ProcessDatabase(lines: seq<Line>, cal: Calendar): Run
  {
    if lines == [] then Run(NoStats, [])
    else Step(ProcessDatabase(lines[..|lines| - 1], cal), lines[|lines| - 1], cal)
  }

  /** Number of raw records whose lower-cased state is `s`. */
  function WithState(ds: seq<Data>, s: string): nat
  {
    if ds == [] then 0
    else WithState(ds[..|ds| - 1], s) + (if StateOf(ds[|ds| - 1]) == s then 1 else 0)
  }

  /** Number of written records with parent category `c`. */
  function WithCategory(ws: seq<WebRecord>, c: string): nat
  {
    if ws == [] then 0
    else WithCategory(ws[..|ws| - 1], c) + (if ws[|ws| - 1].category == c then 1 else 0)
  }

  /** The records a run writes are exactly the normalised decoded records
      whose state the normaliser does not exclude. */
  function Kept(ds: seq<Data>, cal: Calendar): seq<WebRecord>
  {
    if ds == [] then []
    else
      var d := ds[|ds| - 1];
      Kept(ds[..|ds| - 1], cal) + (if StateOf(d) in ExcludedStates then [] else [Normalise(d, cal)])
  }

  /** The corrected run's records: those of `Kept`, each with its
      creator's id. */
  function KeptWithCreators(ds: seq<Data>, cal: Calendar): seq<WebRecord>
  {
    if ds == [] then []
    else
      var d := ds[|ds| - 1];
      KeptWithCreators(ds[..|ds| - 1], cal)
        + (if StateOf(d) in ExcludedStates then [] else [NormaliseWithCreator(d, cal)])
  }

  lemma WithStateAppend(ds: seq<Data>, d: Data, s: string)
    ensures WithState(ds + [d], s) == WithState(ds, s) + (if StateOf(d) == s then 1 else 0)
  {
    assert (ds + [d])[..|ds|] == ds;
  }

  lemma KeptAppend(ds: seq<Data>, d: Data, cal: Calendar)
    ensures Kept(ds + [d], cal) == Kept(ds, cal) + (if StateOf(d) in ExcludedStates then [] else [Normalise(d, cal)])
  {
    assert (ds + [d])[..|ds|] == ds;
  }

  lemma WithCategoryAppend(ws: seq<WebRecord>, w: WebRecord, c: string)
    ensures WithCategory(ws + [w], c) == WithCategory(ws, c) + (if w.category == c then 1 else 0)
  {
    assert (ws + [w])[..|ws|] == ws;
  }

  /** Every line is counted once; undecodable lines count only as decode
      errors; every decoded record is included or excluded; and the output
      is the normalised non-excluded records in input order. */
  lemma {:induction false} DatabaseAccounting(lines: seq<Line>, cal: Calendar)
    ensures ProcessDatabase(lines, cal).stats.totalProcessed == |lines|
    ensures ProcessDatabase(lines, cal).stats.jsonDecodeErrors == Malformed(lines)
    ensures ProcessDatabase(lines, cal).stats.included + ProcessDatabase(lines, cal).stats.excluded
            == |Decoded(lines)|
    ensures ProcessDatabase(lines, cal).stats.included == |ProcessDatabase(lines, cal).out|
    ensures ProcessDatabase(lines, cal).out == Kept(Decoded(lines), cal)
    ensures forall i :: 0 <= i < |ProcessDatabase(lines, cal).out| ==>
              ProcessDatabase(lines, cal).out[i].creatorId.None?
  {
    if lines != [] {
      var init := lines[..|lines| - 1];
      DatabaseAccounting(init, cal);
      DecodedLast(lines);
      if lines[|lines| - 1].Some? {
        KeptAppend(Decoded(init), lines[|lines| - 1].value, cal);
      } else {
        assert Decoded(lines) == Decoded(init);
      }
    }
  }

  /** `by_state` counts every decoded record under its state, and
      `excluded_by_state` counts those in an excluded state. */
  lemma {:induction false} StateHistograms(lines: seq<Line>, cal: Calendar, s: string)
    ensures CountOf(ProcessDatabase(lines, cal).stats.byState, s) == WithState(Decoded(lines), s)
    ensures CountOf(ProcessDatabase(lines, cal).stats.excludedByState, s)
            == if s in ExcludedStates then WithState(Decoded(lines), s) else 0
  {
    if lines != [] {
      var init := lines[..|lines| - 1];
      StateHistograms(init, cal, s);
      DecodedLast(lines);
      var run := ProcessDatabase(init, cal);
      assert ProcessDatabase(lines, cal) == Step(run, lines[|lines| - 1], cal);
      if lines[|lines| - 1].Some? {
        var d := lines[|lines| - 1].value;
        WithStateAppend(Decoded(init), d, s);
        assert Decoded(lines) == Decoded(init) + [d];
      } else {
        assert Decoded(lines) == Decoded(init);
      }
    }
  }

  /** `by_category` counts every written record under its parent category. */
  lemma {:induction false} CategoryHistogram(lines: seq<Line>, cal: Calendar, c: string)
    ensures CountOf(ProcessDatabase(lines, cal).stats.byCategory, c) == WithCategory(ProcessDatabase(lines, cal).out, c)
  {
    if lines != [] {
      var init := lines[..|lines| - 1];
      CategoryHistogram(init, cal, c);
      var out := ProcessDatabase(init, cal).out;
      var line := lines[|lines| - 1];
      if line.Some? && StateOf(line.value) !in ExcludedStates {
        WithCategoryAppend(out, Normalise(line.value, cal), c);
      }
    }
  }

  /** The normaliser's states stand apart from the outcome filter's: a
      record the filter keeps is always written here, while suspended and
      cancelled records, which the filter drops or relabels, are written
      here with their own state. */
  lemma ExclusionSetsDiffer(d: Data, cal: Calendar)
    ensures StateFilter.ShouldIncludeProject(d).keep ==>
              ProcessProject(StateFilter.ShouldIncludeProject(d).project.value, cal, NoStats).0.Some?
    ensures StateOf(d) in {"suspended", "canceled"} ==>
              ProcessProject(d, cal, NoStats).0 == Some(Normalise(d, cal))
    ensures ExcludedStates < StateFilter.ExcludedStates
  {
    assert "suspended" !in ExcludedStates;
  }
}
