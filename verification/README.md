# Crowdfunding campaign curation pipeline — a Dafny model

This project models the batch curation pipeline of a crowdfunding-success
predictor, together with the small analysis and validation scripts that read
its outputs. Every stage is a deterministic fold over a sequence of campaign
records, so each one becomes a pure Dafny function over sequences. Lemmas
relate each function to an independent reference definition, an inverse, or
an invariant it keeps.

The stages, in pipeline order:

- **Raw records** (`raw.dfy`, module `Raw`). These are the fields of the
  export's `data` object. Each field is an `Option`, where `None` means the
  key is absent. A line that does not decode as JSON is `None`.
- **Duplicate remover** (`dedup.dfy`, `Dedup`). Keeps the first record of
  each truthy id and drops later ones. Records without a usable id are
  always kept. Its statistics cover seen ids, per-state counts and
  duplicate groups.
- **Outcome filter** (`state_filter.dfy`, `StateFilter`). Drops campaigns
  that never concluded. A cancelled campaign becomes `failed` when at most
  60 % of its run remained at cancellation, and is dropped otherwise.
- **Web-record normaliser** (`web_database.dfy`, `WebDatabase`). Converts
  amounts to US dollars, splits the category slug, computes pledge per
  backer and the duration in whole days, and renders dates `dd/mm/yyyy`
  (`dates.dfy`, `Dates`).
- **Pre-input builder** (`creator_history.dfy`, `CreatorHistory`;
  `text_cleaning.dfy`, `TextCleaning`). Finds a creator's earlier
  campaigns, derives the history features, and cleans description and
  blurb text.
- **Feature assembly** (`features.dfy`, `Features`). Builds the category
  vocabulary and its one-hot code, averages word vectors from a lookup
  table, and computes the previous-success rate. When an encoder fails it
  falls back to a zero vector of fixed width.
- **Embedding validation** (`embedding_validation.dfy`,
  `EmbeddingValidation`). Checks each vector for emptiness, all zeros,
  identical values, and variance below 1e-6.
- **Analyses**:
  - period metrics, percentage change and the top-five breakdown
    (`period_analysis.dfy`, `PeriodAnalysis`);
  - funding per backer and the top-funded projects
    (`backer_analysis.dfy`, `BackerAnalysis`);
  - the category and country counter (`category_counts.dfy`,
    `CategoryCounts`);
  - the field-length and numeric-field statistics (`field_stats.dfy`,
    `FieldStats`);
  - the chart-label splitter (`country_chart.dfy`, `CountryChart`).

Shared vocabulary lives in three modules:

- `Common`: `Option`, `Result`, sums and occurrence counts.
- `Text`: Python's `str.isspace`, `split()`, `join`, `strip`, `lower`,
  `title` and `rfind`, over ASCII.
- `Sorting`: a stable descending sort by a real key, and a strictly sorted
  list of distinct strings.

Modelling choices:

- Money and rates are `real`; timestamps are `int`.
- Python dictionaries that keep insertion order are sequences of entries,
  and a key is appended on first sight.
- The local-time calendar (`datetime.fromtimestamp`) is a function
  parameter.
- The text encoders, the word-vector table and `log1p` are fields of a
  `Services` parameter.
- The fixed end date of the analyses is a parameter.

Behaviours of the code that the model keeps as written:

- **Creator id.** The normaliser never writes `creator_id`, although the
  creator history selects earlier campaigns by it. The web database here
  is the record as written, without one (see Findings). The corrected
  record `WebDatabase.NormaliseWithCreator` is used only by the corrected
  creator history.
- **Exclusion sets.** The normaliser and the filter drop different states:
  the normaliser keeps `suspended` records and the filter drops them
  (`WebDatabase.ExclusionSetsDiffer`).
- **Zero creation time.** A `created_at` of 0 is treated as invalid,
  because 0 is falsy (`StateFilter.ZeroCreationIsInvalid`). The
  cancellation boundary is therefore proved on a run from 1000 to 2000.
- **Previous-success rate.** The rate is the plain ratio of successes to
  previous projects, 0 when there are no successes, and 0 when there are
  no previous projects (`Features.SuccessRateIsRatio`).
- **Campaign duration.** The duration is the `days` of a difference of
  timestamps: whole days, rounded down, not a difference of calendar
  dates.

## Model

| member | source | states |
|---|---|---|
| Dedup.UpdateMaps | Tools/check_duplicates.py:74-92 | the id map gains an entry only for a truthy id, and no other id's list changes; the seen ids and the line and duplicate counters are untouched |
| Dedup.ProcessProject | Tools/check_duplicates.py:57-72 | a record without a truthy id is kept and the processor is unchanged; a repeated id is dropped and adds exactly one to duplicates_removed, changing nothing else; a first occurrence is kept and its id joins the seen set |
| Dedup.StepNoKey | Tools/check_duplicates.py:62-64 | a record without a usable id keeps the run invariant and is written out |
| Dedup.StepRepeat | Tools/check_duplicates.py:66-68 | a repeated id keeps the run invariant, is not written, and is counted as a duplicate |
| Dedup.StepNew | Tools/check_duplicates.py:70-72 | a first occurrence keeps the run invariant and is written out |
| Dedup.MalformedLineInvariant | Tools/check_duplicates.py:146-154 | a line that does not decode is counted in total_projects and changes nothing else |
| Dedup.RunInvariant | Tools/check_duplicates.py:144-154 | after every prefix of the input, the output, seen ids, counters and id map agree with the first-occurrence reference filter |
| Dedup.KeepFirstFacts | Tools/check_duplicates.py:66-71 | the reference first-occurrence filter keeps pairwise distinct usable ids, loses no id, and drops exactly the repeats |
| Dedup.KeepFirstOfDistinct | Tools/check_duplicates.py:66-71 | records whose usable ids are already distinct are all kept, and none counts as a repeat |
| Dedup.KeptAreFirstOccurrences | Tools/check_duplicates.py:144-150 | the written records are exactly the first occurrences, in input order, with pairwise distinct usable ids; the seen set is exactly the set of usable ids of the input |
| Dedup.LinesAccountedFor | Tools/check_duplicates.py:145-154 | total_projects counts every line, and kept + duplicates_removed + malformed lines = all lines |
| Dedup.Idempotent | Tools/check_duplicates.py:57-72 | running the remover over its own output removes nothing and writes the same records |
| Dedup.FinalStats | Tools/check_duplicates.py:107-120 | unique_projects is the number of distinct usable ids of the input; no duplicate group or exact duplicate is ever reported, because the id map is filled only on first occurrences |
| Dedup.ByStateCountsKept | Tools/check_duplicates.py:91-92 | by_state counts, per raw state, the kept records that have a usable id and a non-empty state |
| Dedup.DecodedOfLifted | Tools/check_duplicates.py:148-150 | the written file, read back line by line, decodes to the written records with no malformed line |
| Raw.DecodedLength | Tools/check_duplicates.py:145-151 | decoded lines + malformed lines = all lines |
| StateFilter.ThresholdByCrossMultiplication | Tools/filter_kickstarter.py:95-100 | remaining time is at most 60 % exactly when 100·(deadline − cancelled) ≤ 60·(deadline − created), or when the planned run is not positive |
| StateFilter.ShouldIncludeProject | Tools/filter_kickstarter.py:127-153 | a record is kept exactly when a project is returned; kept records have state successful or failed and are unchanged apart from a cancelled record's new label; excluded states, unknown states and cancelled records with a missing or zero timestamp are dropped with their reasons |
| StateFilter.CanceledDecision | Tools/filter_kickstarter.py:133-147 | a cancelled record with usable timestamps is kept, relabelled failed, exactly when at most 60 % of its run remained; otherwise it is dropped as cancelled early |
| StateFilter.ThresholdBoundary | Tools/filter_kickstarter.py:144-147 | a run from 1000 to 2000 cancelled at 1400 has exactly 60 % left and is converted; cancelled at 1399 it is dropped |
| StateFilter.ZeroCreationIsInvalid | Tools/filter_kickstarter.py:135-148 | a cancelled record created at time 0 is dropped for invalid timestamps, whatever its other times |
| StateFilter.CanceledExtremes | Tools/filter_kickstarter.py:95-100 | cancellation at or after the deadline, or a non-positive planned run, always converts to failed; cancellation before creation always drops |
| StateFilter.FilterAccounting | Tools/filter_kickstarter.py:186-220 | every line counts once in total_processed; included + excluded = decoded lines; included = records written; cancelled total = converted + excluded early + invalid timestamps; every written record has state successful or failed |
| Dates.BeforeIsStrictOrder | create_pre_input.py:74 | comparing parsed dates is a strict total order |
| Dates.FormatDate | Tools/make_WebDatabase.py:57 | a rendered date has ten characters with `/` at positions 2 and 5 |
| Dates.ParseDate | create_pre_input.py:53-54 | whatever the strict zero-padded reader accepts is a real calendar date |
| Dates.ParseFormat | create_pre_input.py:53-54 | a valid date written as dd/mm/yyyy parses back to itself |
| Dates.FormatParse | create_pre_input.py:53-54 | a string the strict zero-padded reader accepts is exactly the rendering of the date it denotes |
| WebDatabase.RoundHalfEven | Tools/make_WebDatabase.py:108 | the result is an integer within ½ of the input, and an exact tie goes to the even neighbour |
| WebDatabase.RoundHalfEvenNearest | Tools/make_WebDatabase.py:108 | no integer is nearer to the input than the rounded value |
| WebDatabase.Round2 | Tools/make_WebDatabase.py:108 | `round(x, 2)` is a whole number of hundredths within 0.005 of x, and leaves a value that is already in hundredths alone |
| WebDatabase.PledgePerBacker | Tools/make_WebDatabase.py:105-108 | 0 without backers; otherwise a whole number of hundredths within 0.005 of pledged_usd / backers |
| WebDatabase.ParentCategory | Tools/make_WebDatabase.py:111-113 | an empty slug gives "unknown"; otherwise the result is the prefix of the slug up to, and excluding, the first `/` (the whole slug when there is none) |
| WebDatabase.ParentOfSlug | Tools/make_WebDatabase.py:113 | `parent/child` has parent category `parent`, and a slug without `/` is its own parent |
| WebDatabase.LeadingSlashSlug | Tools/make_WebDatabase.py:113 | a slug starting with `/` gets the empty category, not "unknown" |
| WebDatabase.DurationDays | Tools/make_WebDatabase.py:63-78 | 0 when the calendar cannot convert either timestamp; otherwise the whole number of days in the interval from launch to deadline, rounded down |
| WebDatabase.FormatTimestamp | Tools/make_WebDatabase.py:46-60 | the result is non-empty exactly when the timestamp is present and the calendar renders it to a valid date; then it is that date as `dd/mm/yyyy` and parses back to it; otherwise it is "" |
| WebDatabase.Normalise | Tools/make_WebDatabase.py:101-149 | amounts are scaled by the rate (default 1, amounts default 0); the state is lower-cased; subcategory is the full slug and category its parent; duration is in whole days; the pledge per backer is `PledgePerBacker` of the converted amount and the backers (0 without backers, otherwise the mean rounded to cents); both dates are `FormatTimestamp` of the raw timestamps; country, location, currency, percent funded (default 0), staff pick (default false) and the links are copied; there is no creator id |
| WebDatabase.NormaliseWithCreator | Tools/make_WebDatabase.py:121-149 | the corrected record of the Findings: the written record with the raw creator's id, and nothing else changed |
| WebDatabase.ProcessProject | Tools/make_WebDatabase.py:92-119 | every record is counted under its lower-cased state; an excluded state yields nothing and counts under excluded_by_state; any other record is normalised and counts under its parent category |
| WebDatabase.Step | Tools/make_WebDatabase.py:178-198 | each line counts once; an undecodable line counts only as a decode error; a decoded record is included and its written record (without creator id) appended, or excluded, with the matching histograms updated |
| WebDatabase.DatabaseAccounting | Tools/make_WebDatabase.py:176-198 | total_processed = lines; decode errors = malformed lines; included + excluded = decoded lines; the output is the written records of the non-excluded decoded records, in input order, none with a creator id |
| WebDatabase.StateHistograms | Tools/make_WebDatabase.py:94-98 | by_state counts every decoded record under its lower-cased state, and excluded_by_state counts the excluded ones |
| WebDatabase.CategoryHistogram | Tools/make_WebDatabase.py:119 | by_category counts every written record under its parent category |
| WebDatabase.ExclusionSetsDiffer | Tools/make_WebDatabase.py:29 | the normaliser's exclusion set is a strict subset of the filter's; suspended and cancelled records pass the normaliser |
| TextCleaning.ReplaceChar | create_pre_input.py:13-14 | every occurrence of one character is replaced, and nothing else changes |
| TextCleaning.DropEscape | create_pre_input.py:17 | removing escapes never lengthens the text or introduces a character |
| TextCleaning.DropAddEscape | create_pre_input.py:17 | escaping every quote of a given kind, then applying the replace, gives back the original text |
| TextCleaning.Unescape | create_pre_input.py:18 | dropping backslashes before non-word characters never lengthens the text or introduces a character |
| TextCleaning.UnescapeEscape | create_pre_input.py:18 | unescaping a text in which every non-word character was escaped gives the text back |
| TextCleaning.Clean | create_pre_input.py:12-18 | the cleaned text holds no line break or carriage return |
| TextCleaning.ProcessBlurb | create_pre_input.py:30-41 | a missing or empty blurb gives ""; otherwise the result has no line break and no surrounding whitespace |
| TextCleaning.FirstSentence | create_pre_input.py:21 | with a `.`, the text before the first `.` plus `.`; without one, the stripped text |
| TextCleaning.ProcessText | create_pre_input.py:8-28 | "" for a missing or empty text; otherwise no line breaks and no surrounding whitespace, cut at the last occurrence of the first sentence when that lies after index 0 |
| TextCleaning.ProcessTextCut | create_pre_input.py:24-28 | the result is the whole stripped text, or starts at an occurrence of the first sentence after which none occurs |
| TextCleaning.ProcessTextNoRepeat | create_pre_input.py:24-28 | a first sentence that occurs only at the start leaves the whole stripped text |
| TextCleaning.DescriptionLength | create_pre_input.py:87 | the word count is 0 for a missing text and never exceeds the processed text's length |
| CreatorHistory.Lookup | create_pre_input.py:64 | the id lookup finds nothing exactly when no web record has the id; otherwise it finds the last record with that id |
| CreatorHistory.History | create_pre_input.py:73-74 | the history is, in web-database order, exactly the web records of the same creator id (None equals None) whose deadline date is strictly before the launch date, each as often as it occurs (the reference filter `Select`); it fails exactly when some date does not parse |
| CreatorHistory.SelectMultiplicity | create_pre_input.py:73-74 | a record occurs in the history as often as in the web database when it belongs to the history, and not at all otherwise |
| CreatorHistory.NoLookAhead | create_pre_input.py:74 | a record whose deadline is not before its own launch is never in its own history |
| CreatorHistory.SuccessPlusFailed | create_pre_input.py:75-76 | successful + failed ≤ number of records in the history |
| CreatorHistory.Mean | create_pre_input.py:77-78 | 0 for an empty history; otherwise mean × count = sum |
| CreatorHistory.MeanConstant | create_pre_input.py:77-78 | the mean of a constant list is that constant |
| CreatorHistory.HistoryFeatures | create_pre_input.py:92-97 | previous_projects = size of the history; successes + failures ≤ previous_projects; have_previous_project is 1 exactly for a non-empty history; the averages are the means of goal_usd and pledged_usd over the history |
| CreatorHistory.LabelFeatures | create_pre_input.py:82-98 | state is 1 exactly for a successful project; description_length counts the words of the cleaned description; the blurb is the cleaned blurb |
| CreatorHistory.BuildOne | create_pre_input.py:67-99 | a project id missing from the web database aborts; for a found id, the build succeeds exactly when the history does, and a success is built from the looked-up record and its history |
| CreatorHistory.CollectOutcome | create_pre_input.py:67-80 | the loop succeeds exactly when every iteration does, and then holds one record per description id |
| CreatorHistory.CollectLastWins | create_pre_input.py:80 | the stored record of an id is the outcome of the last description with that id |
| CreatorHistory.BuildAllOutcome | create_pre_input.py:67-99 | the run writes something exactly when every description builds, with one record per id |
| CreatorHistory.MissingProjectAborts | create_pre_input.py:67-71 | one description whose id has no web record makes the whole run write nothing |
| CreatorHistory.LastDescriptionWins | create_pre_input.py:80-99 | the stored record of an id is built from the last description with that id |
| CreatorHistory.AsWrittenHistoryIsEmpty | create_pre_input.py:73-74 | on web records without creator ids, a description that names its creator finds no earlier campaign |
| CreatorHistory.AsWrittenDatabaseHistoryIsEmpty | create_pre_input.py:73-74 | over any web database the normaliser writes, a description that names its creator gets an empty history |
| CreatorHistory.AsWrittenHistoryWithoutCreator | create_pre_input.py:73-74 | on web records without creator ids, a description without a creator id collects every earlier campaign of every creator |
| CreatorHistory.AsWrittenMissesEarlierCampaign | create_pre_input.py:74 | a creator's own earlier campaign is in the history when the record carries the creator id, and is missed when it does not |
| CreatorHistory.CorrectedHistoryIsTheCreators | create_pre_input.py:74 | over the corrected records, which carry creator ids, every earlier campaign of the creator is in the history |
| Features.Vocabulary | Processor.py:79 | the vocabulary is strictly sorted and holds exactly the categories of the data, with "" for a missing one |
| Features.OneHot | Processor.py:308-312 | one position per vocabulary entry, 1 exactly where the entry equals the category |
| Features.OneHotOnes | Processor.py:309-312 | over a list without repeats, the code has exactly one 1 for a listed category and none for an unlisted one |
| Features.OneHotOfKnownCategory | Processor.py:309-312 | every campaign of the data gets a code with exactly one 1 |
| Features.ProcessedCategoryCodes | Processor.py:560 | in the processed data every category code has exactly one 1 |
| Features.Found | Processor.py:347-353 | the vectors collected are table entries of tokens of the text, at most one per token |
| Features.UnknownWordSkipped | Processor.py:349-353 | a token the table does not know adds nothing to the averaged vectors |
| Features.ColumnMean | Processor.py:359 | each component of the mean, times the number of vectors, is the sum of that component |
| Features.ColumnMeanIdentical | Processor.py:359 | the mean of identical vectors is that vector |
| Features.WordMean | Processor.py:338-363 | an empty text, or no known token, gives 100 zeros; otherwise it is the componentwise mean of the known tokens' vectors (100 zeros when their widths differ, where the mean raises) |
| Features.WordMeanSingleKnown | Processor.py:345-359 | a text with one known word is embedded as that word's vector |
| Features.SuccessRateIsRatio | Processor.py:519-530 | the rate is successes / previous projects, or 0 with no previous projects, and lies in [0, 1] whenever 0 ≤ successes ≤ projects |
| Features.DescriptionEmbedding | Processor.py:120-164 | an encoder failure gives 768 zeros and length 0; otherwise the encoding and the word count of the description |
| Features.SentenceEmbedding | Processor.py:223-225 | an encoder failure gives 384 zeros; otherwise the encoding |
| Features.Decimal | Processor.py:555 | `str(idx)` is a non-empty string of digits |
| Features.DecimalNumber | Processor.py:555 | `str(idx)` read back as a number is idx |
| Features.ProcessCampaign | Processor.py:552-572 | the id defaults to str(idx); image_count, video_count, campaign_duration, previous_projects_count and state are the campaign's values when present and 0 when absent; the category code has a 1 exactly at the vocabulary entries equal to the category and 0 elsewhere; the previous-success rate is successes / previous projects, 0 with none; description_length is the word count when encoding succeeds, else 0 |
| EmbeddingValidation.VarianceNonNegative | ValidatingEmbeddings.py:38 | the population variance is never negative |
| EmbeddingValidation.IdenticalVarianceZero | ValidatingEmbeddings.py:30-39 | identical values have variance 0 |
| EmbeddingValidation.ValidateVector | ValidatingEmbeddings.py:5-41 | an empty vector draws exactly the one "is empty" issue; otherwise "all zeros", "identical" and "low variance" are each reported exactly when their condition holds |
| EmbeddingValidation.AllZeroDrawsThree | ValidatingEmbeddings.py:26-39 | an all-zero vector draws all zeros, identical and low variance, in that order |
| EmbeddingValidation.IdenticalDrawsLowVariance | ValidatingEmbeddings.py:30-39 | identical values, including every one-element vector, draw both "identical" and "low variance" |
| EmbeddingValidation.VectorPassesIff | ValidatingEmbeddings.py:18-39 | a vector passes exactly when it is non-empty and its variance is at least 1e-6 |
| EmbeddingValidation.CheckFields | ValidatingEmbeddings.py:64-71 | only absent fields are reported missing; no issue at all exactly when every field passes |
| EmbeddingValidation.ValidateCampaign | ValidatingEmbeddings.py:43-73 | a campaign has no issue exactly when all six embedding fields are present and pass |
| EmbeddingValidation.NoEmbeddingsAllMissing | ValidatingEmbeddings.py:65-68 | without embeddings every field is reported missing, in field order |
| EmbeddingValidation.Collect | ValidatingEmbeddings.py:93-101 | only non-empty issue lists are stored |
| EmbeddingValidation.CollectKeys | ValidatingEmbeddings.py:93-101 | an id is reported exactly when some campaign with that id has issues |
| EmbeddingValidation.CollectLastWins | ValidatingEmbeddings.py:100-101 | a reported id holds the issues of the last campaign with that id that had any |
| EmbeddingValidation.FileKeys | ValidatingEmbeddings.py:90-101 | in the file's result an id is present exactly when a campaign with that id has issues; campaigns without an id are skipped |
| EmbeddingValidation.ValidateFile | ValidatingEmbeddings.py:90-101 | a file that is not a list yields the single file_error entry; otherwise every entry is non-empty |
| PeriodAnalysis.CategoryFiltered | Tools/row1_analysis.py:64 | "N/A" keeps every project; any other value keeps exactly the projects of that category |
| PeriodAnalysis.WindowFiltered | Tools/row1_analysis.py:67-71 | keeps exactly the projects whose deadline lies in the window, both ends included |
| PeriodAnalysis.WindowMembership | Tools/row1_analysis.py:64-71 | a project is counted exactly when its category matches and its deadline lies in the window |
| PeriodAnalysis.SuccessRate | Tools/row1_analysis.py:97 | the rate lies in [0, 100], is 0 for no projects, and otherwise rate × total = successful × 100 |
| PeriodAnalysis.MinLaunch | Tools/row1_analysis.py:77 | the earliest launch of the data |
| PeriodAnalysis.MaxDeadline | Tools/row1_analysis.py:78 | the latest deadline of the data |
| PeriodAnalysis.MinPositiveLaunch | Tools/row1_analysis.py:87 | the smallest positive launch, absent exactly when no launch is positive |
| PeriodAnalysis.Bounds | Tools/row1_analysis.py:72-89 | given bounds are used as they are; otherwise the earliest launch if positive, else the smallest positive launch, up to the latest deadline; it fails where the code raises |
| PeriodAnalysis.DefaultBounds | Tools/row1_analysis.py:72-89 | without a window the start is the earliest positive launch and the end the latest deadline |
| PeriodAnalysis.CalculateMetrics | Tools/row1_analysis.py:50-108 | defined exactly when the bounds are, which it reports; with a window the projects counted are the matching in-window ones, otherwise all matching ones; total, total funds and successful projects are their count, pledge sum and number of successes; the rate is successful / total as a percentage |
| PeriodAnalysis.PercentageChange | Tools/row1_analysis.py:110-114 | infinite exactly when previous is 0 and recent positive; 0 when both are 0 or recent is not positive |
| PeriodAnalysis.PercentageChangeInverse | Tools/row1_analysis.py:114 | growing previous by the reported percentage gives recent |
| PeriodAnalysis.PercentageChangeSign | Tools/row1_analysis.py:114 | for a positive previous, the change is positive exactly on growth and 0 exactly when nothing changed |
| PeriodAnalysis.WindowsShareBoundary | Tools/row1+2_analysis.py:200-205 | a deadline exactly at END − d lies in both the recent and the previous window |
| PeriodAnalysis.WindowsDisjoint | Tools/row1_analysis.py:144-150 | apart from END − d, no deadline lies in both windows |
| PeriodAnalysis.CompareWindows | Tools/row1_analysis.py:142-170 | the recent window is [END − d, END] and the previous one [END − 2d, END − d]; each total counts the matching projects in its window; each side is `CalculateMetrics` of its window and the category, which always succeeds here; the four changes are `PercentageChange` of the recent against the previous totals, funds, successes and success rates; the change in projects is infinite exactly when the previous window is empty and the recent one is not |
| PeriodAnalysis.AddToWellFormed | Tools/row1+2_analysis.py:65-68 | adding a project keeps names distinct and successful ≤ total, and the grand total grows by one |
| PeriodAnalysis.AddToCount | Tools/row1+2_analysis.py:65-66 | adding a project to a group adds one to that group's count and to no other |
| PeriodAnalysis.BreakdownCounts | Tools/row1+2_analysis.py:54-70 | groups have distinct names with successful ≤ total; each group counts exactly the in-window projects with its key; the totals add up to the number of in-window projects |
| PeriodAnalysis.WindowKeysCount | Tools/row1+2_analysis.py:63 | there is one grouping key per in-window project |
| PeriodAnalysis.PreviousOf | Tools/row1+2_analysis.py:149-162 | zeros when no entry has the name; otherwise the last entry with that name |
| PeriodAnalysis.TakeFive | Tools/row1+2_analysis.py:153 | a prefix of at most five entries, the whole list when it is that short |
| PeriodAnalysis.TopFive | Tools/row1+2_analysis.py:145-168 | min(5, number of recent groups) rows, non-increasing in the ranking key, each a recent group with its previous-period figures, no group more often than in the recent period, and every recent group left out ranking no higher than any row |
| PeriodAnalysis.TopIsHighest | Tools/row1+2_analysis.py:150-153 | a prefix of the sorted groups is drawn from the groups, and every group left out ranks no higher than any group kept |
| PeriodAnalysis.NewNameGrowth | Tools/row1+2_analysis.py:162-165 | a name absent from the previous period has infinite growth when its key is positive, else 0 % |
| PeriodAnalysis.CompareBreakdowns | Tools/row1+2_analysis.py:249-255 | a top five is shown exactly when both windows' breakdowns are non-empty, which holds when both windows have a matching project; it is `TopFive` of the recent breakdown against the previous one, by subcategory when a category is chosen |
| BackerAnalysis.Funding | Tools/backer_analysis.py:46-53 | every category entry has positive backers |
| BackerAnalysis.AddFundingLookup | Tools/backer_analysis.py:50-53 | a backed project adds its pledge and backers to its category's entry, creating the entry on first sight; no other entry changes |
| BackerAnalysis.FundingTotals | Tools/backer_analysis.py:46-53 | a category has an entry exactly when a backed project has that title-cased category, and the entry holds exactly those projects' funds and backers |
| BackerAnalysis.Averages | Tools/backer_analysis.py:56-57 | one pair per entry: its category and total funds / total backers |
| BackerAnalysis.Unzip | Tools/backer_analysis.py:61 | two lists of equal length that zip back to the pairs |
| BackerAnalysis.BackerFunding | Tools/backer_analysis.py:42-62 | two lists as long as the number of categories, funding non-increasing, and zipped back together they are the category/funding-per-backer pairs, each exactly once |
| BackerAnalysis.NoBackersNoFunding | Tools/backer_analysis.py:61-62 | with no backed project both lists are empty |
| BackerAnalysis.CategoryFilter | Tools/backer_analysis.py:66-67 | keeps exactly the projects whose category matches, ignoring case |
| BackerAnalysis.CategoryFilterIdempotent | Tools/backer_analysis.py:123-128 | filtering twice by the same category is filtering once |
| BackerAnalysis.Pick | Tools/backer_analysis.py:77-82 | the taken list grows from the accumulator, stays sorted by pledge with distinct ids, stops at top_n, and for top_n < 1 takes every id |
| BackerAnalysis.UniqueCount | Tools/backer_analysis.py:77-80 | the first project of each unseen id is taken once: as many as there are unseen ids |
| BackerAnalysis.PickIsLimit | Tools/backer_analysis.py:77-82 | the loop appends, to what it holds, the first project of each id not yet held, in sorted order, until it holds top_n |
| BackerAnalysis.Candidates | Tools/backer_analysis.py:66-67 | without a category every project is a candidate; with one, only projects of that category, ignoring case |
| BackerAnalysis.TopFunded | Tools/backer_analysis.py:64-84 | the first project of each distinct id of the pledge-sorted candidates, cut to top_n; so min(top_n, number of distinct ids) projects (every id for top_n < 1), distinct ids, non-increasing pledge, all from the filtered input |
| BackerAnalysis.PickSorted | Tools/backer_analysis.py:74-84 | for any pledge-sorted arrangement of the candidates, the loop takes their first project per id, cut to top_n, as many as min(top_n, distinct ids) |
| BackerAnalysis.Timeframe | Tools/backer_analysis.py:116-120 | keeps exactly the projects with END − days ≤ deadline ≤ END |
| BackerAnalysis.Analyze | Tools/backer_analysis.py:109-139 | the run stops exactly when a non-empty category filter leaves nothing; otherwise the funding per backer is `BackerFunding` of the selected projects and the top list is `TopFunded` of them with five places; the top five respect the timeframe and the category |
| BackerAnalysis.Selection | Tools/backer_analysis.py:117-129 | a project is selected exactly when it is in the input, ends inside the window when one is given, and has the named category (compared in lower case) when one is named |
| CategoryCounts.TickEffect | test/analyze_categories_countries.py:43-46 | one tick adds one to the total and to the key's count, no other count changes, and the key joins the key set |
| CategoryCounts.ProcessProject | test/analyze_categories_countries.py:30-46 | each project adds one to total_projects and its country to the country set |
| CategoryCounts.ProcessProjectKeeps | test/analyze_categories_countries.py:33-46 | a project adds one to exactly one category count and one country count, "Unknown" when missing, and keeps both counters summing to total_projects |
| CategoryCounts.ProcessAllCounts | test/analyze_categories_countries.py:24-46 | after all projects both counters sum to total_projects = number of projects; the country set is the key set of the country counter; each count is the number of projects with that name |
| FieldStats.Lengths | test.py:19-27 | fails exactly when a present value is a number; each length comes from an item whose field is present and truthy; characters mode gives lengths ≥ 1; another mode collects nothing |
| FieldStats.LengthsOfStrings | test.py:20-27 | when every item holds a non-empty string, there is one length per item, in item order |
| FieldStats.AbsentSkipped | test.py:21 | an item without the field, or with a falsy value, contributes nothing |
| FieldStats.Min | test.py:40 | the minimum is a member and below every value |
| FieldStats.Max | test.py:41 | the maximum is a member and above every value |
| FieldStats.MeanBetween | test.py:42 | the mean lies between the minimum and the maximum |
| FieldStats.MedianBetween | test.py:43 | the median lies between the minimum and the maximum |
| FieldStats.ConstantStatistics | test.py:39-45 | for a constant list all four statistics equal the constant |
| FieldStats.Describe | test.py:29-45 | the result is a `Summary` of the values: no values gives all None; otherwise min and max are members bounding every value, the mean times the count is the sum, and the median is the middle of a non-increasing arrangement of the values with at least half of them on each side |
| FieldStats.CountPermutation | test.py:43 | how many values lie on one side of a bound depends only on the multiset of values |
| FieldStats.MiddleHalves | test.py:43 | in a non-increasing sequence at least half the values lie at or below the middle, and at least half at or above it |
| FieldStats.MedianHalves | test.py:43 | at least half the values lie at or below the median and at least half at or above it |
| FieldStats.MedianIsMiddle | test.py:43 | the median is the middle value, or the mean of the two middle values, of a non-increasing permutation of the values |
| FieldStats.MeanTimesCount | test.py:42 | the mean times the number of values is their sum |
| FieldStats.DescribeOrdered | test.py:39-45 | min ≤ mean ≤ max and min ≤ median ≤ max |
| FieldStats.AnalyzeFieldLengths | test.py:9-45 | fails exactly when a present value is a number; another count type gives no statistics; otherwise the result is a `Summary` of exactly the lengths `Lengths` collects |
| FieldStats.NumericValues | test.py:51-59 | fails exactly when a selected value is not a number; otherwise it holds the value of every selected item and only such values |
| FieldStats.NumericValuesAreChosen | test.py:51-59 | the collected values are the selected items' field values, one per selected item, in item order |
| FieldStats.HalfConditionIgnored | test.py:54-59 | a condition field without a value, or a value without a field, is ignored |
| FieldStats.ConditionNarrows | test.py:54-57 | a condition only removes values |
| FieldStats.AnalyzeNumericalField | test.py:47-77 | fails exactly when a selected value is not a number; otherwise the summarised values are the selected items' numbers in item order, min and max are values of selected items and bound every selected value, mean and median lie between them, and the statistics are empty exactly when no item is selected; the result is a `Summary` of those values (mean times count is the sum, median in the middle) |
| FieldStats.SummaryOfValues | test.py:60-77 | the summary of the collected values has selected items' values as min and max, bounding every selected value and the mean and median |
| CountryChart.FormatCountryName | Tools/plot/country_chart.py:53-54 | a name of at most ten characters is unchanged |
| CountryChart.WordsOfTwoLines | Tools/plot/country_chart.py:59-60 | splitting the two-line label gives back the words |
| CountryChart.MultiWordLabel | Tools/plot/country_chart.py:56-60 | a long multi-word name becomes its first half of words, one line break, and the rest; the break is the only one; the label's words are the name's words |
| CountryChart.SingleWordLabel | Tools/plot/country_chart.py:62-64 | a long single word gets one break at its middle, and removing it restores the name |
| CountryChart.TwoWordName | Tools/plot/country_chart.py:47-49 | a long two-word name such as "United States" has its space replaced by a line break |
| Text.Words | Processor.py:345 | `split()` yields non-empty words without whitespace |
| Text.WordsOfJoin | Tools/plot/country_chart.py:60 | splitting words joined by single spaces gives the words back |
| Text.Strip | Processor.py:339 | `strip()` is the slice between the leading and trailing whitespace and starts and ends with a non-space |
| Text.StripIdempotent | Processor.py:339 | stripping twice is stripping once |
| Text.LowerIdempotent | Processor.py:339 | lower-casing twice is lower-casing once |
| Text.RFind | create_pre_input.py:24 | `rfind` gives the highest index where the text occurs, or −1 |
| Text.Head | create_pre_input.py:21 | `split('.')[0]` is the prefix before the first `.`, or the whole text |
| Text.TitleLower | Tools/backer_analysis.py:47 | title-casing changes only case |
| Sorting.SortedDistinct | Processor.py:79 | the result is strictly sorted and holds exactly the input's values |
| Sorting.SortDesc | Tools/backer_analysis.py:74 | a permutation of the input that is non-increasing in the key |

## Left out

- StateFilter.RemainingTimePercentage: works on the difference of the raw timestamps. The source converts each timestamp with `datetime.fromtimestamp` and returns 0 when a conversion raises (Tools/filter_kickstarter.py:102-104), which then re-labels the cancelled record as failed; that path is not modelled, and neither is a daylight-saving shift between the local times.
- Input and output: file reading, JSON decoding (a line that does not decode is `None`), logging, printing, plotting, argument parsing and the statistics files.
- JSON `null` and wrongly typed fields: every field is either present or absent. So the exception handlers that nulls or wrong types reach are not modelled. These are the `error_processing` branch of the filter, the `processing` error of the normaliser (also reached by the conversion errors below) and the `unexpected` error of its loop, and the per-field handlers in feature assembly.
- Floating point: amounts, rates, means and variances are exact reals. `round(x, 2)` is modelled as rounding to the nearest hundredth, with ties to even, on the exact value.
- Local time: `datetime.fromtimestamp` is a calendar parameter. Durations take the plain difference of timestamps, so daylight-saving shifts are not modelled.
- WebDatabase.ProcessProject: a timestamp the calendar cannot convert is read as the `ValueError` that `format_date` and `calculate_duration` catch. For far-out timestamps `fromtimestamp` raises `OverflowError` or `OSError` instead, which neither catches: `process_project` then counts a `processing` error after `by_state` and `by_category` were bumped, and writes nothing. That path is not modelled.
- Dates.ParseDate: accepts only the zero-padded `dd/mm/yyyy` form that `format_date` writes. `strptime` also accepts a one-digit or space-padded day and a one-digit month ("1/02/2020", " 1/02/2020", "01/2/2020"), which the web database never holds.
- Text: ASCII only. There is no Unicode whitespace, case mapping or regular-expression word class beyond ASCII.
- The text encoders, the word-vector table and `log1p` are parameters. The log-compressed goal, pledge and funding features pass through them unmodelled.
- The NaN/infinity check of the embedding validator: reals have neither.
- The `file_error` entry for a file that cannot be read, and the non-string ids of the validator.
- The `period` strings of the analyses and the rendering of percentages with one decimal. The filter's reasons keep the exact percentage.
- The per-bucket histogram `by_time_remaining` of the filter.
- A `KeyError` in the analyses (a field missing from a web record). The analysed fields are modelled as always present.
- CategoryCounts.ProcessProject: a `data` or `category` value that is `null` raises, and that project is skipped; this is not modelled.
- FieldStats.Lengths: other value types (lists, booleans) are not modelled; a number makes the script stop and is `None`.
- FieldStats.NumericValues: only numbers are summarised; a selected non-number (which the script passes on to `min` and `mean`) is `None`.
- PeriodAnalysis.TopFive: ties keep their input order (the sort is stable); this is not stated.
- BackerAnalysis.BackerFunding: ties keep their input order; this is not stated.
- BackerAnalysis.TopFunded: ties keep their input order; this is not stated.
- BackerAnalysis.Pick: which projects the loop takes is stated by `BackerAnalysis.PickIsLimit`, not in its own contract, which would make its proof too costly.
- EmbeddingValidation.IdenticalVarianceZero: the converse (variance 0 only for identical values) is not stated, because its proof needs nonlinear real arithmetic.
- Features.ProcessCampaign: the embedding vectors themselves are stated by `DescriptionEmbedding`, `SentenceEmbedding` and `WordMean` and not repeated here.
- Dedup: the name, URL and creator maps are kept but stated only as far as the id map; they never affect what is kept.

## Findings

| source | as written | input that shows it | evidently intended | confidence | as-written member | corrected member |
|---|---|---|---|---|---|---|
| Tools/make_WebDatabase.py:121-149 | the web record has no `creator_id` key, yet the history builder (create_pre_input.py:73-74) selects earlier campaigns by `p.get("creator_id") == creator_id` | creator 7 has a campaign with deadline 01/01/2020 and a description for a later campaign launched 01/02/2020 naming creator 7: the earlier campaign is not in the history, so previous_projects is 0 | the web record carries `data.creator.id`, so the history is that creator's earlier campaigns | not executed | CreatorHistory.AsWrittenMissesEarlierCampaign | CreatorHistory.CorrectedHistoryIsTheCreators |
