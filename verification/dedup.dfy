/** The duplicate remover (`Tools/check_duplicates.py`): the first record
    with a given id is kept, later ones are dropped, records without a
    usable id are always kept. Lookup maps by name, URL and creator are
    kept for reporting only. */
module Dedup {
  import opened Common
  import opened Text
  import opened Raw

  /** The record's id when it is truthy (present and non-zero). */
  function KeyOf(d: Data): Option<int>
  {
    if d.id.Some? && d.id.value != 0 then d.id else None
  }

  /** Counters of `duplicate_stats` that the line loop and the processor update. */
  datatype Counters = Counters(totalProjects: nat, duplicatesRemoved: nat, byState: map<string, nat>)

  /** The state of a `DuplicateProcessor`. */
  datatype Processor = Processor(
    seenIds: set<int>,
    idMap: map<int, seq<Data>>,
    nameMap: map<string, seq<Data>>,
    urlMap: map<string, seq<Data>>,
    creatorMap: map<int, seq<Data>>,
    counters: Counters)

  const Fresh := Processor({}, map[], map[], map[], map[], Counters(0, 0, map[]))

  function AppendTo<K>(m: map<K, seq<Data>>, k: K, d: Data): map<K, seq<Data>>
  {
    m[k := (if k in m then m[k] else []) + [d]]
  }

  /** `_update_maps`: files the record under its id, lower-cased name,
      lower-cased project URL and creator id, and counts its state. */
  function UpdateMaps(p: Processor, d: Data): (r: Processor)
    ensures r.seenIds == p.seenIds
    ensures r.counters.totalProjects == p.counters.totalProjects
    ensures r.counters.duplicatesRemoved == p.counters.duplicatesRemoved
    ensures KeyOf(d).None? ==> r.idMap == p.idMap
    ensures KeyOf(d).Some? ==> r.idMap.Keys == p.idMap.Keys + {KeyOf(d).value}
    ensures forall k :: k in p.idMap && Some(k) != KeyOf(d) ==> k in r.idMap && r.idMap[k] == p.idMap[k]
    ensures KeyOf(d).Some? && KeyOf(d).value !in p.idMap ==> r.idMap[KeyOf(d).value] == [d]
  {
    var name := Lower(d.name.GetOr(""));
    var url := Lower(d.projectUrl.GetOr(""));
    var creatorId := if d.creator.Some? then d.creator.value.id else None;
    var c := p.counters;
    p.(
      idMap := if KeyOf(d).Some? then AppendTo(p.idMap, KeyOf(d).value, d) else p.idMap,
      nameMap := if name != "" then AppendTo(p.nameMap, name, d) else p.nameMap,
      urlMap := if url != "" then AppendTo(p.urlMap, url, d) else p.urlMap,
      creatorMap := if creatorId.Some? && creatorId.value != 0
                    then AppendTo(p.creatorMap, creatorId.value, d) else p.creatorMap,
      counters := if d.state.Some? && d.state.value != ""
                  then c.(byState := Bump(c.byState, d.state.value)) else c)
  }

  /** `process_project`: whether to keep the record, and the processor after it. */
  function ProcessProject(p: Processor, d: Data): (r: (bool, Processor))
    // no usable id: kept, nothing recorded
    ensures KeyOf(d).None? ==> r.0 && r.1 == p
    // a repeated id: dropped, counted once as a duplicate, nothing else changes
    ensures KeyOf(d).Some? && KeyOf(d).value in p.seenIds ==>
              !r.0 && r.1 == p.(counters := p.counters.(duplicatesRemoved := p.counters.duplicatesRemoved + 1))
    // a first occurrence: kept and its id remembered
    ensures KeyOf(d).Some? && KeyOf(d).value !in p.seenIds ==>
              r.0 && r.1.seenIds == p.seenIds + {KeyOf(d).value}
              && r.1.counters.duplicatesRemoved == p.counters.duplicatesRemoved
    ensures r.1.counters.totalProjects == p.counters.totalProjects
  {
    match KeyOf(d)
    case None => (true, p)
    case Some(k) =>
      if k in p.seenIds then
        (false, p.(counters := p.counters.(duplicatesRemoved := p.counters.duplicatesRemoved + 1)))
      else
        (true, UpdateMaps(p.(seenIds := p.seenIds + {k}), d))
  }

  /** One line of `remove_duplicates`: the line is counted, then decoded
      records go through the processor and kept ones are written out. */
  function ReadLine(p: Processor, out: seq<Data>, line: Line): (Processor, seq<Data>)
  {
    var p1 := p.(counters := p.counters.(totalProjects := p.counters.totalProjects + 1));
    match line
    case None => (p1, out)
    case Some(d) =>
      var (keep, p2) := ProcessProject(p1, d);
      (p2, if keep then out + [d] else out)
  }

  /** `remove_duplicates` over all lines: the final processor and the output file. */
  function RemoveDuplicates(lines: seq<Line>): (Processor, seq<Data>)
  {
    if lines == [] then (Fresh, [])
    else
      var (p, out) := RemoveDuplicates(lines[..|lines| - 1]);
      ReadLine(p, out, lines[|lines| - 1])
  }

  /** The statistics written by `finalize_stats`. `duplicateGroups` maps
      an id to its occurrence count for every id filed more than once. */
  datatype Summary = Summary(
    totalProjects: nat,
    duplicatesRemoved: nat,
    uniqueProjects: nat,
    duplicateGroups: map<int, nat>,
    exactDuplicates: nat,
    byState: map<string, nat>)

  function FinalizeStats(p: Processor): Summary
  {
    var groups := map k | k in p.idMap && |p.idMap[k]| > 1 :: |p.idMap[k]|;
    Summary(p.counters.totalProjects, p.counters.duplicatesRemoved, |p.seenIds|,
            groups, |groups.Keys|, p.counters.byState)
  }

  // ---------------------------------------------------------------------
  // Reference definitions, stated over the input alone

  /** The usable ids carried by a sequence of records. */
  function Keys(ds: seq<Data>): set<int>
  {
    set i | 0 <= i < |ds| && KeyOf(ds[i]).Some? :: KeyOf(ds[i]).value
  }

  /** Records with a usable id carry pairwise different ids. */
  predicate DistinctKeys(ds: seq<Data>)
  {
    forall i, j :: 0 <= i < j < |ds| && KeyOf(ds[i]).Some? ==> KeyOf(ds[i]) != KeyOf(ds[j])
  }

  /** First-occurrence filter: a record is kept when it has no usable id or
      when no earlier record carries its id. */
  function KeepFirst(ds: seq<Data>): seq<Data>
  {
    if ds == [] then []
    else
      var init := ds[..|ds| - 1];
      var d := ds[|ds| - 1];
      KeepFirst(init) + (if KeyOf(d).None? || KeyOf(d).value !in Keys(init) then [d] else [])
  }

  /** Number of kept records with a usable id whose raw state is `s`. */
  function StateCount(ds: seq<Data>, s: string): nat
  {
    if ds == [] then 0
    else
      var d := ds[|ds| - 1];
      StateCount(ds[..|ds| - 1], s)
      + (if KeyOf(d).Some? && s != "" && d.state == Some(s) then 1 else 0)
  }

  /** Number of records with a usable id whose id is already among the
      earlier records' ids. */
  function Repeats(ds: seq<Data>): nat
  {
    if ds == [] then 0
    else
      var init := ds[..|ds| - 1];
      var d := ds[|ds| - 1];
      Repeats(init) + (if KeyOf(d).Some? && KeyOf(d).value in Keys(init) then 1 else 0)
  }

  lemma KeysAppend(ds: seq<Data>, d: Data)
    ensures Keys(ds + [d]) == Keys(ds) + (if KeyOf(d).Some? then {KeyOf(d).value} else {})
  {
    var e := ds + [d];
    forall k | k in Keys(e)
      ensures k in Keys(ds) + (if KeyOf(d).Some? then {KeyOf(d).value} else {})
    {
      var i :| 0 <= i < |e| && KeyOf(e[i]).Some? && KeyOf(e[i]).value == k;
      if i < |ds| { assert e[i] == ds[i]; }
    }
    forall k | k in Keys(ds) ensures k in Keys(e)
    {
      var i :| 0 <= i < |ds| && KeyOf(ds[i]).Some? && KeyOf(ds[i]).value == k;
      assert e[i] == ds[i];
    }
    if KeyOf(d).Some? {
      assert e[|ds|] == d;
    }
  }

  /** What one pass of the processor has established after any prefix of
      the input. */
  ghost predicate Invariant(lines: seq<Line>, p: Processor, out: seq<Data>)
  {
    && out == KeepFirst(Decoded(lines))
    && p.seenIds == Keys(out) == Keys(Decoded(lines))
    && p.counters.totalProjects == |lines|
    && p.counters.duplicatesRemoved == Repeats(Decoded(lines))
    && p.idMap.Keys == p.seenIds
    && (forall k :: k in p.idMap ==> |p.idMap[k]| == 1)
    && (forall s :: CountOf(p.counters.byState, s) == StateCount(out, s))
  }

  lemma StateCountAppend(ds: seq<Data>, d: Data, s: string)
    ensures StateCount(ds + [d], s)
            == StateCount(ds, s) + (if KeyOf(d).Some? && s != "" && d.state == Some(s) then 1 else 0)
  {
    assert (ds + [d])[..|ds|] == ds;
  }

  lemma KeepFirstAppend(ds: seq<Data>, d: Data)
    ensures KeepFirst(ds + [d])
            == KeepFirst(ds) + (if KeyOf(d).None? || KeyOf(d).value !in Keys(ds) then [d] else [])
  {
    assert (ds + [d])[..|ds|] == ds;
  }

  lemma RepeatsAppend(ds: seq<Data>, d: Data)
    ensures Repeats(ds + [d])
            == Repeats(ds) + (if KeyOf(d).Some? && KeyOf(d).value in Keys(ds) then 1 else 0)
  {
    assert (ds + [d])[..|ds|] == ds;
  }

  /** A decoded record with no usable id keeps the invariant. */
  lemma {:induction false} StepNoKey(lines: seq<Line>, p: Processor, out: seq<Data>, d: Data)
    requires Invariant(lines, p, out)
    requires KeyOf(d).None?
    ensures Invariant(lines + [Some(d)],
                      p.(counters := p.counters.(totalProjects := p.counters.totalProjects + 1)),
                      out + [d])
  {
    var lines' := lines + [Some(d)];
    assert lines'[..|lines|] == lines;
    DecodedLast(lines');
    var ds := Decoded(lines);
    assert Decoded(lines') == ds + [d];
    KeysAppend(ds, d);
    KeepFirstAppend(ds, d);
    RepeatsAppend(ds, d);
    KeysAppend(out, d);
    forall s ensures CountOf(p.counters.byState, s) == StateCount(out + [d], s)
    {
      StateCountAppend(out, d, s);
    }
  }

  /** A record whose id was seen before keeps the invariant. */
  lemma {:induction false} StepRepeat(lines: seq<Line>, p: Processor, out: seq<Data>, d: Data)
    requires Invariant(lines, p, out)
    requires KeyOf(d).Some? && KeyOf(d).value in p.seenIds
    ensures Invariant(lines + [Some(d)],
                      p.(counters := p.counters.(totalProjects := p.counters.totalProjects + 1,
                                                 duplicatesRemoved := p.counters.duplicatesRemoved + 1)),
                      out)
  {
    var lines' := lines + [Some(d)];
    assert lines'[..|lines|] == lines;
    DecodedLast(lines');
    var ds := Decoded(lines);
    assert Decoded(lines') == ds + [d];
    KeysAppend(ds, d);
    KeepFirstAppend(ds, d);
    RepeatsAppend(ds, d);
  }

  /** A first occurrence keeps the invariant. */
  lemma {:induction false} StepNew(lines: seq<Line>, p: Processor, out: seq<Data>, d: Data)
    requires Invariant(lines, p, out)
    requires KeyOf(d).Some? && KeyOf(d).value !in p.seenIds
    ensures var p1 := p.(counters := p.counters.(totalProjects := p.counters.totalProjects + 1));
            Invariant(lines + [Some(d)], ProcessProject(p1, d).1, out + [d])
  {
    var lines' := lines + [Some(d)];
    var p1 := p.(counters := p.counters.(totalProjects := p.counters.totalProjects + 1));
    var p2 := ProcessProject(p1, d).1;
    assert lines'[..|lines|] == lines;
    DecodedLast(lines');
    var ds := Decoded(lines);
    assert Decoded(lines') == ds + [d];
    KeysAppend(ds, d);
    KeepFirstAppend(ds, d);
    RepeatsAppend(ds, d);
    KeysAppend(out, d);
    forall s ensures CountOf(p2.counters.byState, s) == StateCount(out + [d], s)
    {
      StateCountAppend(out, d, s);
    }
  }

  /** The invariant holds after every prefix of the input. */
  lemma {:induction false} RunInvariant(lines: seq<Line>)
    ensures Invariant(lines, RemoveDuplicates(lines).0, RemoveDuplicates(lines).1)
  {
    if lines == [] {
    } else {
      var init := lines[..|lines| - 1];
      var last := lines[|lines| - 1];
      RunInvariant(init);
      var (p, out) := RemoveDuplicates(init);
      assert lines == init + [last];
      if last.Some? {
        var d := last.value;
        if KeyOf(d).None? {
          StepNoKey(init, p, out, d);
        } else if KeyOf(d).value in p.seenIds {
          StepRepeat(init, p, out, d);
        } else {
          StepNew(init, p, out, d);
        }
      } else {
        DecodedLast(lines);
        MalformedLineInvariant(init, p, out);
      }
    }
  }

  lemma MalformedLineInvariant(lines: seq<Line>, p: Processor, out: seq<Data>)
    requires Invariant(lines, p, out)
    ensures Invariant(lines + [None],
                      p.(counters := p.counters.(totalProjects := p.counters.totalProjects + 1)), out)
  {
    var lines' := lines + [None];
    assert lines'[..|lines|] == lines;
    DecodedLast(lines');
    assert Decoded(lines') == Decoded(lines);
  }

  /** The first-occurrence filter keeps pairwise distinct usable ids, and
      drops exactly the repeats. */
  lemma {:induction false} KeepFirstFacts(ds: seq<Data>)
    ensures DistinctKeys(KeepFirst(ds))
    ensures Keys(KeepFirst(ds)) == Keys(ds)
    ensures |KeepFirst(ds)| + Repeats(ds) == |ds|
  {
    if ds != [] {
      var init := ds[..|ds| - 1];
      var d := ds[|ds| - 1];
      KeepFirstFacts(init);
      assert ds == init + [d];
      KeysAppend(init, d);
      KeepFirstAppend(init, d);
      RepeatsAppend(init, d);
      var k := KeepFirst(init);
      if KeyOf(d).None? || KeyOf(d).value !in Keys(init) {
        KeysAppend(k, d);
        var k' := k + [d];
        assert KeepFirst(ds) == k';
        assert Keys(k') == Keys(ds);
        forall i, j | 0 <= i < j < |k'| && KeyOf(k'[i]).Some?
          ensures KeyOf(k'[i]) != KeyOf(k'[j])
        {
          if j == |k| {
            assert KeyOf(k'[i]).value in Keys(k);
          }
        }
      } else {
        assert KeepFirst(ds) == k;
        assert Keys(ds) == Keys(init);
      }
    }
  }

  /** A first-occurrence filter applied to records with distinct ids keeps all of them. */
  lemma {:induction false} KeepFirstOfDistinct(ds: seq<Data>)
    requires DistinctKeys(ds)
    ensures KeepFirst(ds) == ds
    ensures Repeats(ds) == 0
  {
    if ds != [] {
      var init := ds[..|ds| - 1];
      var d := ds[|ds| - 1];
      assert DistinctKeys(init);
      KeepFirstOfDistinct(init);
      assert ds == init + [d];
    }
  }

  lemma {:induction false} DecodedOfLifted(ds: seq<Data>)
    ensures Decoded(Lift(ds)) == ds
    ensures Malformed(Lift(ds)) == 0
  {
    if ds != [] {
      var init := ds[..|ds| - 1];
      assert Lift(ds)[..|ds| - 1] == Lift(init);
      DecodedOfLifted(init);
      assert ds == init + [ds[|ds| - 1]];
    }
  }

  /** The output file read back as input lines. */
  function Lift(ds: seq<Data>): (lines: seq<Line>)
    ensures |lines| == |ds|
  {
    seq(|ds|, i requires 0 <= i < |ds| => Some(ds[i]))
  }

  // ---------------------------------------------------------------------
  // Properties of the duplicate remover

  /** Kept records are exactly the first occurrences, in input order; their
      usable ids are pairwise distinct and are exactly the ids seen. */
  lemma KeptAreFirstOccurrences(lines: seq<Line>)
    ensures RemoveDuplicates(lines).1 == KeepFirst(Decoded(lines))
    ensures DistinctKeys(RemoveDuplicates(lines).1)
    ensures RemoveDuplicates(lines).0.seenIds == Keys(Decoded(lines))
  {
    RunInvariant(lines);
    KeepFirstFacts(Decoded(lines));
  }

  /** Every line is counted; a line is either kept, counted as a duplicate,
      or malformed, and nothing else. */
  lemma {:induction false} LinesAccountedFor(lines: seq<Line>)
    ensures var (p, out) := RemoveDuplicates(lines);
            && p.counters.totalProjects == |lines|
            && |out| + p.counters.duplicatesRemoved + Malformed(lines) == |lines|
  {
    RunInvariant(lines);
    KeepFirstFacts(Decoded(lines));
    DecodedLength(lines);
  }

  /** Idempotence: running the remover over its own output removes nothing
      and writes the same records back. */
  lemma Idempotent(lines: seq<Line>)
    ensures var out := RemoveDuplicates(lines).1;
            && RemoveDuplicates(Lift(out)).1 == out
            && RemoveDuplicates(Lift(out)).0.counters.duplicatesRemoved == 0
  {
    var out := RemoveDuplicates(lines).1;
    KeptAreFirstOccurrences(lines);
    RunInvariant(Lift(out));
    DecodedOfLifted(out);
    KeepFirstOfDistinct(out);
  }

  /** `finalize_stats`: `unique_projects` is the number of distinct usable
      ids in the input, and no duplicate group is ever reported, because the
      id map is only filled on first occurrences. */
  lemma FinalStats(lines: seq<Line>)
    ensures var s := FinalizeStats(RemoveDuplicates(lines).0);
            && s.uniqueProjects == |Keys(Decoded(lines))|
            && s.duplicateGroups == map[]
            && s.exactDuplicates == 0
            && s.totalProjects == |lines|
  {
    RunInvariant(lines);
    var s := FinalizeStats(RemoveDuplicates(lines).0);
    assert s.duplicateGroups.Keys == {};
  }

  /** `by_state` counts, per raw state, the kept records with a usable id
      and a non-empty state; records without an id are kept but not counted. */
  lemma ByStateCountsKept(lines: seq<Line>, s: string)
    ensures CountOf(RemoveDuplicates(lines).0.counters.byState, s)
            == StateCount(RemoveDuplicates(lines).1, s)
  {
    RunInvariant(lines);
  }
}
