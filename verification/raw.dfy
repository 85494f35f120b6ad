/** The `data` object of one line of the raw crowdfunding export, as the
    curation scripts read it. Every key may be absent (`None`); a line
    whose `data` object is missing reads as `NoData`, because every script
    falls back to `project.get('data', {})`. */
module Raw {
  import opened Common

  /** `data.category`. */
  datatype Category = Category(slug: Option<string>, name: Option<string>)

  /** `data.location`. */
  datatype Location = Location(expandedCountry: Option<string>, name: Option<string>)

  /** `data.creator`, with the creator's profile link `urls.web.user`. */
  datatype Creator = Creator(id: Option<int>, profileUrl: Option<string>)

  datatype Data = Data(
    id: Option<int>,
    name: Option<string>,
    state: Option<string>,
    blurb: Option<string>,
    category: Option<Category>,
    location: Option<Location>,
    country: Option<string>,
    creator: Option<Creator>,
    projectUrl: Option<string>,   // urls.web.project
    goal: Option<real>,
    pledged: Option<real>,
    staticUsdRate: Option<real>,
    backersCount: Option<int>,
    currency: Option<string>,
    createdAt: Option<int>,
    launchedAt: Option<int>,
    deadline: Option<int>,
    stateChangedAt: Option<int>,
    staffPick: Option<bool>,
    percentFunded: Option<real>)

  /** What `project.get('data', {})` yields for a line without `data`. */
  const NoData := Data(None, None, None, None, None, None, None, None, None, None,
                       None, None, None, None, None, None, None, None, None, None)

  /** One input line after JSON decoding: `None` is a line that does not decode. */
  type Line = Option<Data>

  /** The decoded records of the input, in order. */
  function Decoded(lines: seq<Line>): seq<Data>
  {
    if lines == [] then []
    else
      var last := lines[|lines| - 1];
      Decoded(lines[..|lines| - 1]) + (if last.Some? then [last.value] else [])
  }

  /** Number of lines that do not decode. */
  function Malformed(lines: seq<Line>): nat
  {
    if lines == [] then 0
    else Malformed(lines[..|lines| - 1]) + (if lines[|lines| - 1].None? then 1 else 0)
  }

  lemma DecodedLast(lines: seq<Line>)
    requires lines != []
    ensures Decoded(lines) == Decoded(lines[..|lines| - 1])
              + (if lines[|lines| - 1].Some? then [lines[|lines| - 1].value] else [])
  {
  }

  lemma {:induction false} DecodedLength(lines: seq<Line>)
    ensures |Decoded(lines)| + Malformed(lines) == |lines|
  {
    if lines != [] {
      DecodedLength(lines[..|lines| - 1]);
    }
  }

}
