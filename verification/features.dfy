/** The deterministic parts of feature assembly (`Processor.py`,
    `CampaignProcessor`): the category vocabulary and one-hot code, word
    vectors averaged over a lookup table, the previous-success rate, the
    fixed-width fallbacks of the text encoders and the defaults of the
    assembled record. The encoders, the word table and the logarithmic
    compression are parameters. */
module Features {
  import opened Common
  import opened Text
  import opened Sorting
  import Dates

  const DescriptionWidth: nat := 768
  const SentenceWidth: nat := 384
  const WordVectorWidth: nat := 100

  /** One campaign of the pre-input file, with the id taken from its key. */
  datatype Campaign = Campaign(
    id: Option<string>,
    description: Option<string>,
    risk: Option<string>,
    blurb: Option<string>,
    category: Option<string>,
    subcategory: Option<string>,
    country: Option<string>,
    fundingGoal: Option<real>,
    averageFundingGoal: Option<real>,
    averagePledged: Option<real>,
    imageCount: Option<int>,
    videoCount: Option<int>,
    campaignDuration: Option<int>,
    previousProjects: Option<int>,
    previousSuccessfulProjects: Option<int>,
    state: Option<int>)

  /** What the processor consults outside its own code: the long-text
      encoder, the sentence encoder (each `None` where it raises), the word
      table, and `log1p(x) / log(10)`. */
  datatype Services = Services(
    longEncoder: string -> Option<seq<real>>,
    sentenceEncoder: string -> Option<seq<real>>,
    wordTable: map<string, seq<real>>,
    log10p: real -> real)

  /** The record written for one campaign. */
  datatype Processed = Processed(
    id: string,
    descriptionEmbedding: seq<real>,
    descriptionLength: nat,
    blurbEmbedding: seq<real>,
    riskEmbedding: seq<real>,
    categoryEmbedding: seq<int>,
    subcategoryEmbedding: seq<real>,
    countryEmbedding: seq<real>,
    fundingGoal: real,
    imageCount: int,
    videoCount: int,
    campaignDuration: int,
    previousProjectsCount: int,
    previousSuccessRate: real,
    previousPledged: real,
    previousFundingGoal: real,
    state: int)

  // ---------------------------------------------------------------------
  // Category vocabulary and one-hot code

  /** `sorted(set(camp.get('category', '') for camp in data))`. */
  function Vocabulary(cs: seq<Campaign>): (v: seq<string>)
    ensures StrictlySorted(v)
    ensures forall y :: y in v <==> exists i :: 0 <= i < |cs| && cs[i].category.GetOr("") == y
  {
    var cats := seq(|cs|, i requires 0 <= i < |cs| => cs[i].category.GetOr(""));
    assert forall y :: y in cats <==> exists i :: 0 <= i < |cs| && cs[i].category.GetOr("") == y by {
      forall y | y in cats ensures exists i :: 0 <= i < |cs| && cs[i].category.GetOr("") == y {
        var i :| 0 <= i < |cats| && cats[i] == y;
      }
      forall y | exists i :: 0 <= i < |cs| && cs[i].category.GetOr("") == y ensures y in cats {
        var i :| 0 <= i < |cs| && cs[i].category.GetOr("") == y;
        assert cats[i] == y;
      }
    }
    SortedDistinct(cats)
  }

  /** `process_category`: a 1 where the vocabulary holds the category. */
  function OneHot(vocab: seq<string>, category: string): (r: seq<int>)
    ensures |r| == |vocab|
    ensures forall i :: 0 <= i < |vocab| ==> r[i] == (if vocab[i] == category then 1 else 0)
  {
    seq(|vocab|, i requires 0 <= i < |vocab| => if vocab[i] == category then 1 else 0)
  }

  /** Number of 1s in a code. */
  function Ones(r: seq<int>): nat
  {
    if r == [] then 0 else Ones(r[..|r| - 1]) + (if r[|r| - 1] == 1 then 1 else 0)
  }

  /** Over a list without repetitions the code of a listed category has
      exactly one 1, at the category's position; that of an unlisted one
      has none. */
  lemma {:induction false} OneHotOnes(vocab: seq<string>, category: string)
    requires forall i, j :: 0 <= i < j < |vocab| ==> vocab[i] != vocab[j]
    ensures Ones(OneHot(vocab, category)) == (if category in vocab then 1 else 0)
  {
    if vocab != [] {
      var init := vocab[..|vocab| - 1];
      OneHotOnes(init, category);
      assert OneHot(vocab, category)[..|vocab| - 1] == OneHot(init, category);
      assert vocab == init + [vocab[|vocab| - 1]];
    }
  }

  /** Every campaign of the data gets a code with exactly one 1. */
  lemma OneHotOfKnownCategory(cs: seq<Campaign>, i: int)
    requires 0 <= i < |cs|
    ensures Ones(OneHot(Vocabulary(cs), cs[i].category.GetOr(""))) == 1
  {
    var v := Vocabulary(cs);
    forall a, b | 0 <= a < b < |v| ensures v[a] != v[b] {
      StrictlySortedDistinct(v, a, b);
    }
    OneHotOnes(v, cs[i].category.GetOr(""));
  }

  // ---------------------------------------------------------------------
  // Word vectors

  /** The table's vectors for the tokens it knows, in token order; unknown
      tokens are skipped. */
  /** `v` is the table's vector of one of the tokens. */
  predicate VectorOf(table: map<string, seq<real>>, tokens: seq<string>, v: seq<real>)
  {
    exists w :: w in tokens && w in table && table[w] == v
  }

  function Found(table: map<string, seq<real>>, tokens: seq<string>): (r: seq<seq<real>>)
    ensures |r| <= |tokens|
    ensures forall k :: 0 <= k < |r| ==> VectorOf(table, tokens, r[k])
  {
    if tokens == [] then []
    else
      var init := tokens[..|tokens| - 1];
      var w := tokens[|tokens| - 1];
      var rest := Found(table, init);
      forall k | 0 <= k < |rest| ensures VectorOf(table, tokens, rest[k]) {
        assert VectorOf(table, init, rest[k]);
        var x :| x in init && x in table && table[x] == rest[k];
        assert x in tokens;
      }
      assert w in tokens;
      rest + (if w in table then [table[w]] else [])
  }

  lemma FoundAppend(table: map<string, seq<real>>, tokens: seq<string>, w: string)
    ensures Found(table, tokens + [w]) == Found(table, tokens) + (if w in table then [table[w]] else [])
  {
    assert (tokens + [w])[..|tokens|] == tokens;
  }

  /** Column `j` of a list of vectors. */
  function Column(vs: seq<seq<real>>, j: nat): (c: seq<real>)
    requires forall i :: 0 <= i < |vs| ==> j < |vs[i]|
    ensures |c| == |vs| && forall i :: 0 <= i < |vs| ==> c[i] == vs[i][j]
  {
    seq(|vs|, i requires 0 <= i < |vs| => vs[i][j])
  }

  /** `np.mean(vs, axis=0)` for vectors of one width. */
  function ColumnMean(vs: seq<seq<real>>, width: nat): (m: seq<real>)
    requires vs != []
    requires forall i :: 0 <= i < |vs| ==> |vs[i]| == width
    ensures |m| == width
    ensures forall j :: 0 <= j < width ==> m[j] * |vs| as real == Sum(Column(vs, j))
  {
    seq(width, j requires 0 <= j < width => Sum(Column(vs, j)) / |vs| as real)
  }

  /** Vectors that are all the same average to that vector. */
  lemma ColumnMeanIdentical(vs: seq<seq<real>>, v: seq<real>)
    requires vs != []
    requires forall i :: 0 <= i < |vs| ==> vs[i] == v
    ensures ColumnMean(vs, |v|) == v
  {
    var m := ColumnMean(vs, |v|);
    forall j | 0 <= j < |v| ensures m[j] == v[j] {
      var col := Column(vs, j);
      SumConstant(col, v[j]);
      assert m[j] * |vs| as real == Sum(col);
      assert m[j] * |vs| as real == |vs| as real * v[j];
    }
  }

  predicate SameWidth(vs: seq<seq<real>>)
  {
    vs != [] && forall i :: 0 <= i < |vs| ==> |vs[i]| == |vs[0]|
  }

  /** `process_subcategory_embedding` / `process_country_embedding`: the
      lower-cased, stripped text is split into words; the vectors of the
      words the table knows are averaged. An empty text, no known word, or
      vectors of different widths (the mean raises) give 100 zeros. */
  function WordMean(table: map<string, seq<real>>, text: string): (r: seq<real>)
    ensures Strip(Lower(text)) == [] ==> r == Zeros(WordVectorWidth)
    ensures Found(table, Words(Strip(Lower(text)))) == [] ==> r == Zeros(WordVectorWidth)
    ensures var vs := Found(table, Words(Strip(Lower(text))));
            SameWidth(vs) ==> r == ColumnMean(vs, |vs[0]|)
    ensures var vs := Found(table, Words(Strip(Lower(text))));
            vs != [] && !SameWidth(vs) ==> r == Zeros(WordVectorWidth)
  {
    var t := Strip(Lower(text));
    if t == [] then Zeros(WordVectorWidth)
    else
      var vs := Found(table, Words(t));
      if vs == [] then Zeros(WordVectorWidth)
      else if SameWidth(vs) then ColumnMean(vs, |vs[0]|)
      else Zeros(WordVectorWidth)
  }

  /** A text whose one known word is `w` is embedded as `w`'s vector. */
  lemma WordMeanSingleKnown(table: map<string, seq<real>>, text: string, w: string)
    requires w in table
    requires Found(table, Words(Strip(Lower(text)))) == [table[w]]
    ensures WordMean(table, text) == table[w]
  {
    ColumnMeanIdentical([table[w]], table[w]);
  }

  /** Unknown words do not move the mean: appending an unknown word to the
      token list changes nothing that is averaged. */
  lemma UnknownWordSkipped(table: map<string, seq<real>>, tokens: seq<string>, w: string)
    requires w !in table
    ensures Found(table, tokens + [w]) == Found(table, tokens)
  {
    FoundAppend(table, tokens, w);
  }

  // ---------------------------------------------------------------------
  // Previous success rate

  /** `calculate_previous_sucess_rate` as written: 0 when there was no
      success; otherwise successes over projects, where a zero denominator
      raises and the handler returns 0. */
  function PreviousSuccessRate(c: Campaign): real
  {
    var projects := c.previousProjects.GetOr(0) as real;
    var successes := c.previousSuccessfulProjects.GetOr(0) as real;
    if successes == 0.0 then 0.0
    else if projects == 0.0 then 0.0   // ZeroDivisionError, caught
    else successes / projects
  }

  /** The rate is the plain ratio, with 0 for no previous projects, and it
      is a fraction whenever successes never exceed projects. */
  lemma SuccessRateIsRatio(c: Campaign)
    ensures var p := c.previousProjects.GetOr(0) as real;
            var s := c.previousSuccessfulProjects.GetOr(0) as real;
            && PreviousSuccessRate(c) == (if p != 0.0 then s / p else 0.0)
            && (0.0 <= s <= p ==> 0.0 <= PreviousSuccessRate(c) <= 1.0)
  {
    var p := c.previousProjects.GetOr(0) as real;
    var s := c.previousSuccessfulProjects.GetOr(0) as real;
    if p != 0.0 && 0.0 < s <= p {
      assert s / p <= 1.0 by {
        assert s / p * p == s;
      }
    }
  }

  // ---------------------------------------------------------------------
  // Text encoders with their fallbacks

  /** `process_description_embedding`: the encoding and the word count;
      (768 zeros, 0) when encoding fails. */
  function DescriptionEmbedding(svc: Services, c: Campaign): (r: (seq<real>, nat))
    ensures svc.longEncoder(c.description.GetOr("")).None? ==> r == (Zeros(DescriptionWidth), 0)
    ensures svc.longEncoder(c.description.GetOr("")).Some? ==>
              r == (svc.longEncoder(c.description.GetOr("")).value, |Words(c.description.GetOr(""))|)
  {
    var text := c.description.GetOr("");
    match svc.longEncoder(text)
    case None => (Zeros(DescriptionWidth), 0)
    case Some(v) => (v, |Words(text)|)
  }

  /** `process_riskandchallenges_embedding` and `process_blurb`: the
      sentence encoding, 384 zeros when encoding fails. */
  function SentenceEmbedding(svc: Services, text: Option<string>): (r: seq<real>)
    ensures svc.sentenceEncoder(text.GetOr("")).None? ==> r == Zeros(SentenceWidth)
    ensures svc.sentenceEncoder(text.GetOr("")).Some? ==> r == svc.sentenceEncoder(text.GetOr("")).value
  {
    match svc.sentenceEncoder(text.GetOr(""))
    case None => Zeros(SentenceWidth)
    case Some(v) => v
  }

  // ---------------------------------------------------------------------
  // Assembly

  /** `str(n)` for a natural number. */
  function Decimal(n: nat): (s: string)
    ensures s != [] && Dates.AllDigits(s)
  {
    if n < 10 then [Dates.Digit(n)] else Decimal(n / 10) + [Dates.Digit(n % 10)]
  }

  /** Reading the decimal text back gives the number. */
  lemma {:induction false} DecimalNumber(n: nat)
    ensures Dates.Number(Decimal(n)) == n
  {
    var s := Decimal(n);
    if n < 10 {
      assert s[..0] == [];
    } else {
      DecimalNumber(n / 10);
      assert s[..|s| - 1] == Decimal(n / 10);
    }
  }

  /** `process_campaign`. */
  function ProcessCampaign(svc: Services, vocab: seq<string>, c: Campaign, idx: nat): (r: Processed)
    ensures r.id == c.id.GetOr(Decimal(idx))
    ensures r.imageCount == (if c.imageCount.Some? then c.imageCount.value else 0)
    ensures r.videoCount == (if c.videoCount.Some? then c.videoCount.value else 0)
    ensures r.campaignDuration == (if c.campaignDuration.Some? then c.campaignDuration.value else 0)
    ensures r.previousProjectsCount == (if c.previousProjects.Some? then c.previousProjects.value else 0)
    ensures r.state == (if c.state.Some? then c.state.value else 0)
    ensures |r.categoryEmbedding| == |vocab|
    ensures forall i :: 0 <= i < |vocab| ==>
              && (r.categoryEmbedding[i] == 1 <==> vocab[i] == c.category.GetOr(""))
              && (r.categoryEmbedding[i] == 0 || r.categoryEmbedding[i] == 1)
    ensures var p := c.previousProjects.GetOr(0) as real;
            var s := c.previousSuccessfulProjects.GetOr(0) as real;
            r.previousSuccessRate == (if p != 0.0 then s / p else 0.0)
    ensures svc.longEncoder(c.description.GetOr("")).None? ==> r.descriptionLength == 0
    ensures svc.longEncoder(c.description.GetOr("")).Some? ==>
              r.descriptionLength == |Words(c.description.GetOr(""))|
  {
    SuccessRateIsRatio(c);
    var (desc, len) := DescriptionEmbedding(svc, c);
    Processed(
      id := c.id.GetOr(Decimal(idx)),
      descriptionEmbedding := desc,
      descriptionLength := len,
      blurbEmbedding := SentenceEmbedding(svc, c.blurb),
      riskEmbedding := SentenceEmbedding(svc, c.risk),
      categoryEmbedding := OneHot(vocab, c.category.GetOr("")),
      subcategoryEmbedding := WordMean(svc.wordTable, c.subcategory.GetOr("")),
      countryEmbedding := WordMean(svc.wordTable, c.country.GetOr("")),
      fundingGoal := svc.log10p(c.fundingGoal.GetOr(0.0)),
      imageCount := c.imageCount.GetOr(0),
      videoCount := c.videoCount.GetOr(0),
      campaignDuration := c.campaignDuration.GetOr(0),
      previousProjectsCount := c.previousProjects.GetOr(0),
      previousSuccessRate := PreviousSuccessRate(c),
      previousPledged := svc.log10p(c.averagePledged.GetOr(0.0)),
      previousFundingGoal := svc.log10p(c.averageFundingGoal.GetOr(0.0)),
      state := c.state.GetOr(0))
  }

  /** `main`: every campaign processed in order, against the vocabulary of
      the whole data. */
  function ProcessAll(svc: Services, cs: seq<Campaign>): (r: seq<Processed>)
    ensures |r| == |cs|
    ensures forall i :: 0 <= i < |cs| ==> r[i] == ProcessCampaign(svc, Vocabulary(cs), cs[i], i)
  {
    var vocab := Vocabulary(cs);
    seq(|cs|, i requires 0 <= i < |cs| => ProcessCampaign(svc, vocab, cs[i], i))
  }

  /** In the processed data every category code has exactly one 1. */
  lemma ProcessedCategoryCodes(svc: Services, cs: seq<Campaign>, i: int)
    requires 0 <= i < |cs|
    ensures Ones(ProcessAll(svc, cs)[i].categoryEmbedding) == 1
  {
    OneHotOfKnownCategory(cs, i);
  }
}
