/** The pre-input builder (`create_pre_input.py`, `main`): joins each
    scraped project description with its web-database record, derives the
    creator's earlier campaigns from the web database, and assembles the
    feature record the model is trained on. */
module CreatorHistory {
  import opened Common
  import opened Text
  import opened Dates
  import opened TextCleaning
  import opened WebDatabase

  /** One scraped project description (`project_descriptions_*.json`). */
  datatype Description = Description(
    id: int,
    creatorId: Option<int>,
    description: Option<string>,
    risk: Option<string>,
    subcategory: Option<string>,
    category: Option<string>,
    country: Option<string>,
    goal: Option<real>,
    imageCount: Option<int>,
    videoCount: Option<int>,
    campaignDuration: Option<int>,
    state: Option<string>)

  /** Why a run ends without writing anything: a description whose id is
      not in the web database, or a date `parse_date` rejects. */
  datatype Abort = MissingProject(id: int) | BadDate(text: string)

  /** The record written for one project. */
  datatype PreInput = PreInput(
    description: string,
    blurb: string,
    risk: string,
    subcategory: string,
    category: string,
    country: string,
    descriptionLength: nat,
    fundingGoal: real,
    imageCount: int,
    videoCount: int,
    campaignDuration: int,
    previousProjects: nat,
    previousSuccessfulProjects: nat,
    previousFailedProjects: nat,
    havePreviousProject: int,
    averageFundingGoal: real,
    averagePledged: real,
    state: int)

  /** `web[i]` is the last web record with id `id`. */
  predicate LastAt(web: seq<WebRecord>, i: int, id: int)
  {
    0 <= i < |web| && web[i].id == Some(id) && forall j :: i < j < |web| ==> web[j].id != Some(id)
  }

  /** `large_dict[id]`: the dictionary keeps the last web record with a
      given id. */
  function Lookup(web: seq<WebRecord>, id: int): (r: Option<WebRecord>)
    ensures r.None? <==> forall i :: 0 <= i < |web| ==> web[i].id != Some(id)
    ensures r.Some? ==> exists i :: LastAt(web, i, id) && web[i] == r.value
  {
    if web == [] then None
    else if web[|web| - 1].id == Some(id) then
      assert LastAt(web, |web| - 1, id);
      Some(web[|web| - 1])
    else
      var init := web[..|web| - 1];
      var r := Lookup(init, id);
      assert forall i :: 0 <= i < |init| ==> init[i] == web[i];
      assert r.Some? ==> exists i :: LastAt(web, i, id) && web[i] == r.value by {
        if r.Some? {
          var i :| LastAt(init, i, id) && init[i] == r.value;
          forall j | i < j < |web| ensures web[j].id != Some(id) {
            if j < |init| { assert web[j] == init[j]; }
          }
          assert LastAt(web, i, id);
        }
      }
      r
  }

  /** The history test for one web record: same creator id (`None` equals
      `None`) and a deadline date strictly before the launch date. Dates
      are parsed only for records of the same creator, deadline first. */
  function Earlier(p: WebRecord, creator: Option<int>, launch: string): Result<bool, Abort>
  {
    if p.creatorId != creator then Ok(false)
    else match ParseDate(p.deadline)
      case None => Err(BadDate(p.deadline))
      case Some(dl) =>
        match ParseDate(launch)
        case None => Err(BadDate(launch))
        case Some(ld) => Ok(Before(dl, ld))
  }

  /** True when `p` belongs to the history of a campaign launched on
      `launch` by `creator`. */
  predicate InHistory(p: WebRecord, creator: Option<int>, launch: string)
  {
    && p.creatorId == creator
    && ParseDate(p.deadline).Some? && ParseDate(launch).Some?
    && Before(ParseDate(p.deadline).value, ParseDate(launch).value)
  }

  /** Reference filter: the records of `web` that belong to the history,
      in order and each as often as it occurs. */
  function Select(web: seq<WebRecord>, creator: Option<int>, launch: string): seq<WebRecord>
  {
    if web == [] then []
    else (if InHistory(web[0], creator, launch) then [web[0]] else []) + Select(web[1..], creator, launch)
  }

  lemma {:induction false} SelectSnoc(web: seq<WebRecord>, p: WebRecord, creator: Option<int>, launch: string)
    ensures Select(web + [p], creator, launch)
            == Select(web, creator, launch) + (if InHistory(p, creator, launch) then [p] else [])
  {
    if web == [] {
      assert ([p])[1..] == [];
    } else {
      assert (web + [p])[1..] == web[1..] + [p];
      SelectSnoc(web[1..], p, creator, launch);
    }
  }

  /** A record occurs in the history as often as it occurs in the web
      database when it belongs to the history, and not at all otherwise. */
  lemma {:induction false} SelectMultiplicity(web: seq<WebRecord>, creator: Option<int>, launch: string, p: WebRecord)
    ensures multiset(Select(web, creator, launch))[p]
            == (if InHistory(p, creator, launch) then multiset(web)[p] else 0)
  {
    if web != [] {
      SelectMultiplicity(web[1..], creator, launch, p);
      assert web == [web[0]] + web[1..];
    }
  }

  /** A successful `Earlier` answers the history test. */
  lemma EarlierAnswers(p: WebRecord, creator: Option<int>, launch: string)
    requires Earlier(p, creator, launch).Ok?
    ensures Earlier(p, creator, launch).value == InHistory(p, creator, launch)
  {
  }

  /** `past_projects`: the web records, in order, that pass `Earlier`; the
      first date that does not parse aborts. */
  function History(web: seq<WebRecord>, creator: Option<int>, launch: string): (r: Result<seq<WebRecord>, Abort>)
    ensures r.Ok? ==> forall p :: p in r.value <==> p in web && InHistory(p, creator, launch)
    ensures r.Ok? ==> r.value == Select(web, creator, launch)
    ensures r.Ok? <==> forall i :: 0 <= i < |web| ==> Earlier(web[i], creator, launch).Ok?
  {
    if web == [] then Ok([])
    else
      var p := web[|web| - 1];
      match History(web[..|web| - 1], creator, launch)
      case Err(e) => Err(e)
      case Ok(h) =>
        match Earlier(p, creator, launch)
        case Err(e) => Err(e)
        case Ok(b) =>
          assert forall q :: q in web <==> q in web[..|web| - 1] || q == p by {
            assert web == web[..|web| - 1] + [p];
          }
          EarlierAnswers(p, creator, launch);
          SelectSnoc(web[..|web| - 1], p, creator, launch);
          assert web[..|web| - 1] + [p] == web;
          Ok(if b then h + [p] else h)
  }

  /** No look-ahead: a record whose own deadline is not before its own
      launch date never appears in its own history. */
  lemma NoLookAhead(web: seq<WebRecord>, p: WebRecord)
    requires ParseDate(p.deadline).Some? && ParseDate(p.launchedAt).Some?
    requires !Before(ParseDate(p.deadline).value, ParseDate(p.launchedAt).value)
    requires History(web, p.creatorId, p.launchedAt).Ok?
    ensures p !in History(web, p.creatorId, p.launchedAt).value
  {
  }

  /** Number of records in `h` whose state is `s`. */
  function CountState(h: seq<WebRecord>, s: string): (n: nat)
    ensures n <= |h|
  {
    if h == [] then 0 else CountState(h[..|h| - 1], s) + (if h[|h| - 1].state == s then 1 else 0)
  }

  /** A record is counted as successful or as failed, never both. */
  lemma {:induction false} SuccessPlusFailed(h: seq<WebRecord>)
    ensures CountState(h, "successful") + CountState(h, "failed") <= |h|
  {
    if h != [] {
      SuccessPlusFailed(h[..|h| - 1]);
    }
  }

  function GoalsUsd(h: seq<WebRecord>): (v: seq<real>)
    ensures |v| == |h| && forall i :: 0 <= i < |h| ==> v[i] == h[i].goalUsd
  {
    seq(|h|, i requires 0 <= i < |h| => h[i].goalUsd)
  }

  function PledgedUsd(h: seq<WebRecord>): (v: seq<real>)
    ensures |v| == |h| && forall i :: 0 <= i < |h| ==> v[i] == h[i].pledgedUsd
  {
    seq(|h|, i requires 0 <= i < |h| => h[i].pledgedUsd)
  }

  /** The mean of `v`, 0 for an empty sequence. */
  function Mean(v: seq<real>): (m: real)
    ensures v == [] ==> m == 0.0
    ensures v != [] ==> m * |v| as real == Sum(v)
  {
    if v == [] then 0.0 else Sum(v) / |v| as real
  }

  /** The mean of a constant sequence is that constant. */
  lemma MeanConstant(v: seq<real>, c: real)
    requires v != []
    requires forall i :: 0 <= i < |v| ==> v[i] == c
    ensures Mean(v) == c
  {
    SumConstant(v, c);
  }

  /** The features of one project, given its web record and its history. */
  function Features(d: Description, w: WebRecord, h: seq<WebRecord>): PreInput
  {
    var desc := ProcessText(Some(d.description.GetOr("")));
    PreInput(
      description := desc,
      blurb := ProcessBlurb(w.blurb),
      risk := ProcessText(Some(d.risk.GetOr(""))),
      subcategory := d.subcategory.GetOr(""),
      category := d.category.GetOr(""),
      country := d.country.GetOr(""),
      descriptionLength := |Words(desc)|,
      fundingGoal := d.goal.GetOr(0.0),
      imageCount := d.imageCount.GetOr(0),
      videoCount := d.videoCount.GetOr(0),
      campaignDuration := d.campaignDuration.GetOr(0),
      previousProjects := |h|,
      previousSuccessfulProjects := CountState(h, "successful"),
      previousFailedProjects := CountState(h, "failed"),
      havePreviousProject := if h != [] then 1 else 0,
      averageFundingGoal := Mean(GoalsUsd(h)),
      averagePledged := Mean(PledgedUsd(h)),
      state := if d.state == Some("successful") then 1 else 0)
  }

  /** The history-derived features: the counts, the presence flag and the
      means of the goals and of the pledges over the history. */
  lemma HistoryFeatures(d: Description, w: WebRecord, h: seq<WebRecord>)
    ensures var r := Features(d, w, h);
            && r.previousProjects == |h|
            && r.previousSuccessfulProjects + r.previousFailedProjects <= r.previousProjects
            && (r.havePreviousProject == 1 <==> h != [])
            && (r.havePreviousProject == 0 <==> h == [])
            && r.averageFundingGoal == Mean(GoalsUsd(h))
            && r.averagePledged == Mean(PledgedUsd(h))
  {
    SuccessPlusFailed(h);
  }

  /** The label is 1 exactly for a successful project; the description
      length counts the words of the cleaned description; the blurb is the
      web record's cleaned blurb. */
  lemma LabelFeatures(d: Description, w: WebRecord, h: seq<WebRecord>)
    ensures var r := Features(d, w, h);
            && (r.state == 1 <==> d.state == Some("successful"))
            && (r.state == 0 <==> d.state != Some("successful"))
            && r.descriptionLength == |Words(r.description)|
            && r.blurb == ProcessBlurb(w.blurb)
  {
  }

  /** One iteration of the loop of `main`. */
  function BuildOne(web: seq<WebRecord>, d: Description): (r: Result<PreInput, Abort>)
    ensures Lookup(web, d.id).None? ==> r == Err(MissingProject(d.id))
    ensures r.Ok? ==> Lookup(web, d.id).Some?
                      && var w := Lookup(web, d.id).value;
                         var h := History(web, d.creatorId, w.launchedAt);
                         h.Ok? && r.value == Features(d, w, h.value)
    ensures Lookup(web, d.id).Some? ==>
              (r.Ok? <==> History(web, d.creatorId, Lookup(web, d.id).value.launchedAt).Ok?)
  {
    match Lookup(web, d.id)
    case None => Err(MissingProject(d.id))
    case Some(w) =>
      match History(web, d.creatorId, w.launchedAt)
      case Err(e) => Err(e)
      case Ok(h) => Ok(Features(d, w, h))
  }

  /** The ids of the descriptions. */
  function Ids(ds: seq<Description>): (r: set<int>)
    ensures forall x :: x in r <==> exists i :: 0 <= i < |ds| && ds[i].id == x
  {
    if ds == [] then {}
    else
      var init := ds[..|ds| - 1];
      var r := Ids(init) + {ds[|ds| - 1].id};
      assert forall i :: 0 <= i < |init| ==> init[i] == ds[i];
      r
  }

  /** The outcome of each description's iteration, in order. */
  function Outcomes(web: seq<WebRecord>, ds: seq<Description>): (rs: seq<Result<PreInput, Abort>>)
    ensures |rs| == |ds|
    ensures forall i :: 0 <= i < |ds| ==> rs[i] == BuildOne(web, ds[i])
  {
    seq(|ds|, i requires 0 <= i < |ds| => BuildOne(web, ds[i]))
  }

  /** The loop of `main` over the iterations' outcomes: the first failure
      aborts the run; otherwise each record is stored under its id, a later
      description replacing an earlier one with the same id. */
  function Collect(ds: seq<Description>, rs: seq<Result<PreInput, Abort>>): Result<map<int, PreInput>, Abort>
    requires |rs| == |ds|
  {
    if ds == [] then Ok(map[])
    else
      match Collect(ds[..|ds| - 1], rs[..|rs| - 1])
      case Err(e) => Err(e)
      case Ok(m) =>
        match rs[|rs| - 1]
        case Err(e) => Err(e)
        case Ok(x) => Ok(m[ds[|ds| - 1].id := x])
  }

  /** `main` after loading. */
  function BuildAll(web: seq<WebRecord>, ds: seq<Description>): Result<map<int, PreInput>, Abort>
  {
    Collect(ds, Outcomes(web, ds))
  }

  /** The loop succeeds exactly when every iteration does, and then holds
      one record per description id. */
  lemma {:induction false} CollectOutcome(ds: seq<Description>, rs: seq<Result<PreInput, Abort>>)
    requires |rs| == |ds|
    ensures Collect(ds, rs).Ok? <==> forall i :: 0 <= i < |rs| ==> rs[i].Ok?
    ensures Collect(ds, rs).Ok? ==> Collect(ds, rs).value.Keys == Ids(ds)
  {
    if ds != [] {
      var init := rs[..|rs| - 1];
      CollectOutcome(ds[..|ds| - 1], init);
      assert forall i :: 0 <= i < |init| ==> init[i] == rs[i];
      if Collect(ds[..|ds| - 1], init).Err? {
        var i :| 0 <= i < |init| && !init[i].Ok?;
        assert !rs[i].Ok?;
      }
    }
  }

  /** The stored record for an id is the outcome of the last description
      with that id. */
  lemma {:induction false} CollectLastWins(ds: seq<Description>, rs: seq<Result<PreInput, Abort>>, i: int)
    requires |rs| == |ds|
    requires Collect(ds, rs).Ok?
    requires 0 <= i < |ds|
    requires forall j :: i < j < |ds| ==> ds[j].id != ds[i].id
    ensures ds[i].id in Collect(ds, rs).value && rs[i].Ok?
    ensures Collect(ds, rs).value[ds[i].id] == rs[i].value
  {
    if i < |ds| - 1 {
      var init := ds[..|ds| - 1];
      assert init[i] == ds[i];
      CollectLastWins(init, rs[..|rs| - 1], i);
    }
  }

  /** The run succeeds exactly when every description builds, and then
      holds one record per description id. */
  lemma BuildAllOutcome(web: seq<WebRecord>, ds: seq<Description>)
    ensures BuildAll(web, ds).Ok? <==> forall i :: 0 <= i < |ds| ==> BuildOne(web, ds[i]).Ok?
    ensures BuildAll(web, ds).Ok? ==> BuildAll(web, ds).value.Keys == Ids(ds)
  {
    CollectOutcome(ds, Outcomes(web, ds));
  }

  /** A description whose id has no web record makes the whole run fail. */
  lemma MissingProjectAborts(web: seq<WebRecord>, ds: seq<Description>, i: int)
    requires 0 <= i < |ds|
    requires forall j :: 0 <= j < |web| ==> web[j].id != Some(ds[i].id)
    ensures BuildAll(web, ds).Err?
  {
    assert Outcomes(web, ds)[i] == Err(MissingProject(ds[i].id));
    CollectOutcome(ds, Outcomes(web, ds));
  }

  /** The stored record for an id is built from the last description with
      that id. */
  lemma LastDescriptionWins(web: seq<WebRecord>, ds: seq<Description>, i: int)
    requires 0 <= i < |ds|
    requires forall j :: i < j < |ds| ==> ds[j].id != ds[i].id
    ensures BuildAll(web, ds).Ok? ==>
              && ds[i].id in BuildAll(web, ds).value
              && BuildOne(web, ds[i]).Ok?
              && BuildAll(web, ds).value[ds[i].id] == BuildOne(web, ds[i]).value
  {
    if BuildAll(web, ds).Ok? {
      CollectLastWins(ds, Outcomes(web, ds), i);
    }
  }

  // ---------------------------------------------------------------------
  // The creator id the history relies on

  /** The web database as the normaliser writes it has no creator id
      (`WebDatabase.DatabaseAccounting`), so a description that names its
      creator finds no earlier campaign at all. */
  lemma AsWrittenHistoryIsEmpty(web: seq<WebRecord>, c: int, launch: string)
    requires forall i :: 0 <= i < |web| ==> web[i].creatorId.None?
    ensures History(web, Some(c), launch) == Ok([])
  {
    var r := History(web, Some(c), launch);
    assert r.Ok?;
    assert forall p :: p !in r.value;
  }

  /** Hence, over any run of the normaliser, a named creator's history is
      empty. */
  lemma AsWrittenDatabaseHistoryIsEmpty(lines: seq<Raw.Line>, cal: Calendar, c: int, launch: string)
    ensures History(ProcessDatabase(lines, cal).out, Some(c), launch) == Ok([])
  {
    DatabaseAccounting(lines, cal);
    AsWrittenHistoryIsEmpty(ProcessDatabase(lines, cal).out, c, launch);
  }

  /** ... and a description without a creator id collects every earlier
      campaign of every creator. */
  lemma AsWrittenHistoryWithoutCreator(web: seq<WebRecord>, p: WebRecord, launch: string)
    requires forall i :: 0 <= i < |web| ==> web[i].creatorId.None?
    requires History(web, None, launch).Ok?
    requires p in web
    ensures p in History(web, None, launch).value
            <==> ParseDate(p.deadline).Some? && ParseDate(launch).Some?
                 && Before(ParseDate(p.deadline).value, ParseDate(launch).value)
  {
  }

  /** A two-record example of the above: with the normaliser's records as
      written, a creator's own earlier campaign is not counted. */
  lemma AsWrittenMissesEarlierCampaign(earlier: WebRecord, launch: string, c: int)
    requires earlier.creatorId.None?
    requires ParseDate(earlier.deadline).Some? && ParseDate(launch).Some?
    requires Before(ParseDate(earlier.deadline).value, ParseDate(launch).value)
    ensures History([earlier.(creatorId := Some(c))], Some(c), launch) == Ok([earlier.(creatorId := Some(c))])
    ensures History([earlier], Some(c), launch) == Ok([])
  {
    var named := earlier.(creatorId := Some(c));
    assert [named][..0] == [];
    assert [earlier][..0] == [];
    assert Earlier(named, Some(c), launch) == Ok(true);
    assert History([named], Some(c), launch) == Ok([] + [named]);
    assert [] + [named] == [named];
    assert Earlier(earlier, Some(c), launch) == Ok(false);
  }

  /** With creator ids carried into the web database, the history of a
      named creator is exactly that creator's campaigns with an earlier
      deadline. */
  lemma CorrectedHistoryIsTheCreators(ds: seq<Raw.Data>, cal: Calendar, c: int, launch: string, i: int)
    requires 0 <= i < |ds|
    requires StateOf(ds[i]) !in ExcludedStates
    requires ds[i].creator.Some? && ds[i].creator.value.id == Some(c)
    ensures var w := NormaliseWithCreator(ds[i], cal);
            var h := History(KeptWithCreators(ds, cal), Some(c), launch);
            (&& ParseDate(w.deadline).Some? && ParseDate(launch).Some?
             && Before(ParseDate(w.deadline).value, ParseDate(launch).value)
             && h.Ok?)
            ==> w in h.value
  {
    KeptContains(ds, cal, i);
  }

  lemma {:induction false} KeptContains(ds: seq<Raw.Data>, cal: Calendar, i: int)
    requires 0 <= i < |ds|
    requires StateOf(ds[i]) !in ExcludedStates
    ensures NormaliseWithCreator(ds[i], cal) in KeptWithCreators(ds, cal)
  {
    if i < |ds| - 1 {
      KeptContains(ds[..|ds| - 1], cal, i);
    }
  }
}
