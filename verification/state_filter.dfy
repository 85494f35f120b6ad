/** The outcome filter (`Tools/filter_kickstarter.py`): keeps finished
    campaigns, drops campaigns that never concluded, and re-labels campaigns
    cancelled late in their run as failures. */
module StateFilter {
  import opened Common
  import opened Text
  import opened Raw

  /** States that never reached an outcome. */
  const ExcludedStates: set<string> := {"suspended", "started", "live", "submitted"}

  /** Percentage of the run still ahead at cancellation up to which a
      cancelled campaign counts as a failure. */
  const ConversionThreshold: real := 60.0

  /** `calculate_remaining_time_percentage`: the share of the planned run
      (creation to deadline) that had not yet elapsed at cancellation, in
      percent; 0 when the planned run is not positive. */
  function RemainingTimePercentage(deadline: int, canceledAt: int, createdAt: int): real
  {
    var total := deadline - createdAt;
    if total > 0 then ((deadline - canceledAt) as real / total as real) * 100.0 else 0.0
  }

  /** The threshold test over integers: at most 60 % of the run remained
      exactly when 100 * (deadline - cancelled) <= 60 * (deadline - created),
      or the planned run is not positive. */
  lemma ThresholdByCrossMultiplication(deadline: int, canceledAt: int, createdAt: int)
    ensures RemainingTimePercentage(deadline, canceledAt, createdAt) <= ConversionThreshold
            <==> (deadline - createdAt <= 0
                  || 100 * (deadline - canceledAt) <= 60 * (deadline - createdAt))
  {
    var total := deadline - createdAt;
    if total > 0 {
      var left := deadline - canceledAt;
      var l := left as real;
      var t := total as real;
      var q := l / t;
      assert RemainingTimePercentage(deadline, canceledAt, createdAt) == q * 100.0;
      ScalePositive(q * 100.0, 60.0, t);
      assert q * t == l;
      assert (q * 100.0) * t == (q * t) * 100.0;
      assert (100 * left) as real == l * 100.0;
      assert (60 * total) as real == 60.0 * t;
    }
  }

  /** Multiplying both sides by a positive factor keeps the order. */
  lemma ScalePositive(a: real, b: real, t: real)
    requires t > 0.0
    ensures a <= b <==> a * t <= b * t
  {
    if a <= b {
      assert (b - a) * t >= 0.0;
    } else {
      assert (a - b) * t > 0.0;
    }
  }

  /** Why a record was kept or dropped; the percentages are kept exact
      rather than rendered with one decimal. */
  datatype Reason =
    | ExcludedState(state: string)            // one of ExcludedStates
    | Outcome(state: string)                  // successful or failed, kept as is
    | CanceledConverted(percent: real)        // kept, relabelled failed
    | CanceledExcluded(percent: real)         // cancelled too early
    | CanceledInvalidTimestamps
    | UnknownState(state: string)

  datatype Decision = Decision(keep: bool, project: Option<Data>, reason: Reason)

  /** A timestamp field that Python's `all([...])` accepts: present and non-zero. */
  predicate Truthy(t: Option<int>)
  {
    t.Some? && t.value != 0
  }

  /** The lower-cased state, with an absent state read as "". */
  function StateOf(d: Data): string
  {
    Lower(d.state.GetOr(""))
  }

  /** `should_include_project`. */
  function ShouldIncludeProject(d: Data): (r: Decision)
    ensures r.keep <==> r.project.Some?
    // closure: whatever is kept has a concluded outcome
    ensures r.keep ==> StateOf(r.project.value) in {"successful", "failed"}
    // kept records are unchanged except for a cancelled record's new label
    ensures r.keep ==> r.project.value == d || r.project.value == d.(state := Some("failed"))
    ensures StateOf(d) in ExcludedStates ==> r == Decision(false, None, ExcludedState(StateOf(d)))
    ensures StateOf(d) in {"successful", "failed"} ==> r == Decision(true, Some(d), Outcome(StateOf(d)))
    ensures StateOf(d) !in ExcludedStates + {"successful", "failed", "canceled"} ==>
              r == Decision(false, None, UnknownState(StateOf(d)))
    ensures StateOf(d) == "canceled" && !(Truthy(d.deadline) && Truthy(d.stateChangedAt) && Truthy(d.createdAt)) ==>
              r == Decision(false, None, CanceledInvalidTimestamps)
  {
    var state := StateOf(d);
    if state in ExcludedStates then Decision(false, None, ExcludedState(state))
    else if state == "canceled" then
      if Truthy(d.deadline) && Truthy(d.stateChangedAt) && Truthy(d.createdAt) then
        var pct := RemainingTimePercentage(d.deadline.value, d.stateChangedAt.value, d.createdAt.value);
        if pct <= ConversionThreshold then
          var relabelled := d.(state := Some("failed"));
          assert StateOf(relabelled) == "failed";
          Decision(true, Some(relabelled), CanceledConverted(pct))
        else Decision(false, None, CanceledExcluded(pct))
      else Decision(false, None, CanceledInvalidTimestamps)
    else if state in {"successful", "failed"} then Decision(true, Some(d), Outcome(state))
    else Decision(false, None, UnknownState(state))
  }

  /** A cancelled record with usable timestamps. */
  function Canceled(deadline: int, canceledAt: int, createdAt: int): Data
  {
    NoData.(state := Some("canceled"), deadline := Some(deadline),
            stateChangedAt := Some(canceledAt), createdAt := Some(createdAt))
  }

  /** A cancelled record is relabelled a failure exactly when at most 60 % of
      its run remained, and dropped otherwise. */
  lemma CanceledDecision(d: Data)
    requires StateOf(d) == "canceled"
    requires Truthy(d.deadline) && Truthy(d.stateChangedAt) && Truthy(d.createdAt)
    ensures var total := d.deadline.value - d.createdAt.value;
            var left := d.deadline.value - d.stateChangedAt.value;
            var r := ShouldIncludeProject(d);
            && (r.keep <==> (total <= 0 || 100 * left <= 60 * total))
            && (r.keep ==> r.project == Some(d.(state := Some("failed"))) && r.reason.CanceledConverted?)
            && (!r.keep ==> r.reason.CanceledExcluded?)
  {
    ThresholdByCrossMultiplication(d.deadline.value, d.stateChangedAt.value, d.createdAt.value);
    assert "canceled" !in ExcludedStates;
  }

  /** The boundary: a run from 1000 to 2000 cancelled at 1400 has exactly
      60 % left and becomes a failure; cancelled at 1399 it is dropped. */
  lemma ThresholdBoundary()
    ensures ShouldIncludeProject(Canceled(2000, 1400, 1000)).keep
    ensures ShouldIncludeProject(Canceled(2000, 1400, 1000)).reason == CanceledConverted(60.0)
    ensures !ShouldIncludeProject(Canceled(2000, 1399, 1000)).keep
  {
    assert StateOf(Canceled(2000, 1400, 1000)) == "canceled";
    assert StateOf(Canceled(2000, 1399, 1000)) == "canceled";
    CanceledDecision(Canceled(2000, 1400, 1000));
    CanceledDecision(Canceled(2000, 1399, 1000));
  }

  /** A creation timestamp of 0 is falsy, so such a cancelled record is
      dropped as having invalid timestamps whatever its other times are. */
  lemma ZeroCreationIsInvalid(deadline: int, canceledAt: int)
    ensures ShouldIncludeProject(Canceled(deadline, canceledAt, 0)).reason == CanceledInvalidTimestamps
  {
    assert StateOf(Canceled(deadline, canceledAt, 0)) == "canceled";
  }

  /** Cancellation at or after the deadline, or a non-positive planned run,
      always yields a failure; cancellation before creation never does. */
  lemma CanceledExtremes(d: Data)
    requires StateOf(d) == "canceled"
    requires Truthy(d.deadline) && Truthy(d.stateChangedAt) && Truthy(d.createdAt)
    ensures d.stateChangedAt.value >= d.deadline.value ==> ShouldIncludeProject(d).keep
    ensures d.deadline.value <= d.createdAt.value ==> ShouldIncludeProject(d).keep
    ensures d.stateChangedAt.value < d.createdAt.value < d.deadline.value ==> !ShouldIncludeProject(d).keep
  {
    CanceledDecision(d);
  }

  // ---------------------------------------------------------------------
  // The line loop of `filter_projects`

  datatype CanceledStats = CanceledStats(total: nat, convertedToFailed: nat, excludedEarly: nat, invalidTimestamps: nat)

  datatype FilterStats = FilterStats(
    totalProcessed: nat, included: nat, excluded: nat,
    byState: map<string, nat>, canceled: CanceledStats)

  const NoStats := FilterStats(0, 0, 0, map[], CanceledStats(0, 0, 0, 0))

  /** One decoded record: counted under its lower-cased state, decided, and
      counted as included or excluded with its cancellation sub-counters. */
  function Tally(st: FilterStats, d: Data): FilterStats
  {
    var state := StateOf(d);
    var c0 := st.canceled;
    var c1 := if state == "canceled" then c0.(total := c0.total + 1) else c0;
    var r := ShouldIncludeProject(d);
    var st1 := st.(byState := Bump(st.byState, state));
    if r.keep then
      st1.(included := st.included + 1,
           canceled := if r.reason.CanceledConverted? then c1.(convertedToFailed := c1.convertedToFailed + 1) else c1)
    else
      st1.(excluded := st.excluded + 1,
           canceled := if r.reason.CanceledExcluded? then c1.(excludedEarly := c1.excludedEarly + 1)
                       else if r.reason.CanceledInvalidTimestamps? then c1.(invalidTimestamps := c1.invalidTimestamps + 1)
                       else c1)
  }

  /** `filter_projects` over all lines: the statistics and the output records. */
  function FilterProjects(lines: seq<Line>): (FilterStats, seq<Data>)
  {
    if lines == [] then (NoStats, [])
    else
      var (st, out) := FilterProjects(lines[..|lines| - 1]);
      var st1 := st.(totalProcessed := st.totalProcessed + 1);
      match lines[|lines| - 1]
      case None => (st1, out)
      case Some(d) =>
        var r := ShouldIncludeProject(d);
        (Tally(st1, d), if r.keep then out + [r.project.value] else out)
  }

  /** Every line is counted once; every decoded line is either included or
      excluded; every cancelled line lands in exactly one cancellation
      counter; and every output record has a concluded outcome. */
  lemma {:induction false} FilterAccounting(lines: seq<Line>)
    ensures var (st, out) := FilterProjects(lines);
            && st.totalProcessed == |lines|
            && st.included + st.excluded == |Decoded(lines)|
            && st.included == |out|
            && st.canceled.total == st.canceled.convertedToFailed + st.canceled.excludedEarly
                                    + st.canceled.invalidTimestamps
            && (forall i :: 0 <= i < |out| ==> StateOf(out[i]) in {"successful", "failed"})
  {
    if lines != [] {
      var init := lines[..|lines| - 1];
      FilterAccounting(init);
      DecodedLast(lines);
      var (st, out) := FilterProjects(init);
      match lines[|lines| - 1]
      case None =>
      case Some(d) =>
        var r := ShouldIncludeProject(d);
        if StateOf(d) == "canceled" {
          assert "canceled" !in ExcludedStates;
          assert r.reason.CanceledConverted? || r.reason.CanceledExcluded? || r.reason.CanceledInvalidTimestamps?;
        } else {
          assert !r.reason.CanceledConverted? && !r.reason.CanceledExcluded? && !r.reason.CanceledInvalidTimestamps?;
        }
    }
  }
}
