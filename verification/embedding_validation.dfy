/** The embedding checks run over the processed campaigns
    (`ValidatingEmbeddings.py`): per vector, per campaign in a fixed field
    order, and over the whole file, keeping only campaigns with problems. */
module EmbeddingValidation {
  import opened Common

  /** One problem report; `Message` renders the text the checker prints. */
  datatype Issue =
    | IsEmpty(name: string)
    | AllZeros(name: string)
    | AllIdentical(name: string)
    | LowVariance(name: string)
    | Missing(name: string)
    | NotAList

  function Message(i: Issue): string
  {
    match i
    case IsEmpty(n) => n + " is empty"
    case AllZeros(n) => n + " contains all zeros"
    case AllIdentical(n) => n + " contains all identical values"
    case LowVariance(n) => n + " has very low variance"
    case Missing(n) => "Missing " + n
    case NotAList => "JSON file does not contain a list of campaigns"
  }

  /** The variance below which a vector is reported, `1e-6`. */
  const VarianceFloor: real := 0.000001

  /** Every element equals the first. */
  predicate Identical(v: seq<real>)
  {
    forall i :: 0 <= i < |v| ==> v[i] == v[0]
  }

  function Mean(v: seq<real>): real
    requires v != []
  {
    Sum(v) / |v| as real
  }

  function SquaredDeviations(v: seq<real>, m: real): (d: seq<real>)
    ensures |d| == |v|
    ensures forall i :: 0 <= i < |v| ==> d[i] == (v[i] - m) * (v[i] - m)
  {
    seq(|v|, i requires 0 <= i < |v| => (v[i] - m) * (v[i] - m))
  }

  /** Population variance (`np.var`). */
  function Variance(v: seq<real>): real
    requires v != []
  {
    Sum(SquaredDeviations(v, Mean(v))) / |v| as real
  }

  /** A sum of non-negative terms is non-negative, and it is zero only when
      every term is. */
  lemma {:induction false} SumNonNegative(v: seq<real>)
    requires forall i :: 0 <= i < |v| ==> v[i] >= 0.0
    ensures Sum(v) >= 0.0
    ensures Sum(v) == 0.0 ==> forall i :: 0 <= i < |v| ==> v[i] == 0.0
  {
    if v != [] {
      SumNonNegative(v[..|v| - 1]);
    }
  }

  /** The variance is never negative. */
  lemma VarianceNonNegative(v: seq<real>)
    requires v != []
    ensures Variance(v) >= 0.0
  {
    SumNonNegative(SquaredDeviations(v, Mean(v)));
  }

  /** Identical values have variance zero. */
  lemma IdenticalVarianceZero(v: seq<real>)
    requires v != [] && Identical(v)
    ensures Variance(v) == 0.0
  {
    var n := |v| as real;
    SumConstant(v, v[0]);
    assert Sum(v) == n * v[0];
    assert Mean(v) == v[0] by {
      assert Sum(v) / n == v[0];
    }
    var d := SquaredDeviations(v, v[0]);
    SumConstant(d, 0.0);
  }

  /** `validate_embedding` without the NaN/infinity check: an empty vector
      has only the one issue; otherwise all zeros, identical values and low
      variance are each reported, in that order. */
  function ValidateVector(v: seq<real>, name: string): (r: seq<Issue>)
    ensures v == [] ==> r == [IsEmpty(name)]
    ensures v != [] ==> forall k :: 0 <= k < |r| ==> !r[k].IsEmpty?
    ensures v != [] ==> (AllZeros(name) in r <==> AllZero(v))
    ensures v != [] ==> (AllIdentical(name) in r <==> Identical(v))
    ensures v != [] ==> (LowVariance(name) in r <==> Variance(v) < VarianceFloor)
    ensures |r| <= 3
  {
    if v == [] then [IsEmpty(name)]
    else
      (if AllZero(v) then [AllZeros(name)] else [])
      + (if Identical(v) then [AllIdentical(name)] else [])
      + (if Variance(v) < VarianceFloor then [LowVariance(name)] else [])
  }

  /** An all-zero vector always draws all three non-empty issues. */
  lemma AllZeroDrawsThree(v: seq<real>, name: string)
    requires v != [] && AllZero(v)
    ensures ValidateVector(v, name) == [AllZeros(name), AllIdentical(name), LowVariance(name)]
  {
    assert Identical(v);
    IdenticalVarianceZero(v);
  }

  /** Identical values always come with low variance; a one-element vector
      is always identical. */
  lemma IdenticalDrawsLowVariance(v: seq<real>, name: string)
    requires v != [] && Identical(v)
    ensures AllIdentical(name) in ValidateVector(v, name)
    ensures LowVariance(name) in ValidateVector(v, name)
  {
    IdenticalVarianceZero(v);
  }

  /** A non-empty vector passes exactly when its variance reaches the floor. */
  lemma VectorPassesIff(v: seq<real>, name: string)
    ensures ValidateVector(v, name) == [] <==> v != [] && Variance(v) >= VarianceFloor
  {
    if v != [] {
      if AllZero(v) {
        assert Identical(v);
      }
      if Identical(v) {
        IdenticalVarianceZero(v);
      }
    }
  }

  // ---------------------------------------------------------------------
  // Campaigns

  /** One processed campaign: its id, if any, and its embedding fields. */
  datatype Campaign = Campaign(id: Option<string>, embeddings: map<string, seq<real>>)

  /** The embedding fields, in the order they are checked. */
  const EmbeddingFields: seq<string> := [
    "description_embedding", "blurb_embedding", "risk_embedding",
    "category_embedding", "subcategory_embedding", "country_embedding"]

  function CheckField(emb: map<string, seq<real>>, f: string): seq<Issue>
  {
    if f !in emb then [Missing(f)] else ValidateVector(emb[f], f)
  }

  /** The issues of the fields `fs`, concatenated in field order. */
  function CheckFields(emb: map<string, seq<real>>, fs: seq<string>): (r: seq<Issue>)
    ensures forall f :: Missing(f) in r ==> f in fs && f !in emb
    ensures r == [] <==> forall k :: 0 <= k < |fs| ==> CheckField(emb, fs[k]) == []
  {
    if fs == [] then []
    else
      var rest := CheckFields(emb, fs[1..]);
      assert forall k :: 1 <= k < |fs| ==> fs[k] == fs[1..][k - 1];
      CheckField(emb, fs[0]) + rest
  }

  /** `validate_campaign_embeddings`. */
  function ValidateCampaign(c: Campaign): (r: seq<Issue>)
    ensures r == [] <==> forall f :: f in EmbeddingFields ==>
              f in c.embeddings && ValidateVector(c.embeddings[f], f) == []
  {
    var r := CheckFields(c.embeddings, EmbeddingFields);
    assert forall f :: f in EmbeddingFields <==> exists k :: 0 <= k < |EmbeddingFields| && EmbeddingFields[k] == f;
    r
  }

  /** With no embeddings at all, every field is reported missing, in
      field order. */
  lemma {:induction false} NoEmbeddingsAllMissing(fs: seq<string>)
    ensures CheckFields(map[], fs) == seq(|fs|, k requires 0 <= k < |fs| => Missing(fs[k]))
  {
    if fs != [] {
      NoEmbeddingsAllMissing(fs[1..]);
    }
  }

  // ---------------------------------------------------------------------
  // The whole file

  /** The decoded file: a list of campaigns, or any other JSON value. */
  datatype FileContent = Campaigns(cs: seq<Campaign>) | OtherValue

  /** A campaign's id with the issues found in it. */
  datatype Report = Report(id: Option<string>, issues: seq<Issue>)

  function Reports(cs: seq<Campaign>): (r: seq<Report>)
    ensures |r| == |cs|
    ensures forall i :: 0 <= i < |cs| ==> r[i] == Report(cs[i].id, ValidateCampaign(cs[i]))
  {
    seq(|cs|, i requires 0 <= i < |cs| => Report(cs[i].id, ValidateCampaign(cs[i])))
  }

  /** The loop of `validate_processed_campaigns`: reports without an id
      are skipped; one with issues enters (or overwrites) its id's entry. */
  function Collect(rs: seq<Report>): (r: map<string, seq<Issue>>)
    ensures forall k :: k in r ==> r[k] != []
  {
    if rs == [] then map[]
    else
      var m := Collect(rs[..|rs| - 1]);
      var x := rs[|rs| - 1];
      if x.id.Some? && x.issues != [] then m[x.id.value := x.issues] else m
  }

  /** Reported ids are exactly the ids of reports with issues. */
  lemma {:induction false} CollectKeys(rs: seq<Report>, id: string)
    ensures id in Collect(rs) <==>
              exists i :: 0 <= i < |rs| && rs[i].id == Some(id) && rs[i].issues != []
  {
    if rs != [] {
      var init := rs[..|rs| - 1];
      CollectKeys(init, id);
      if exists i :: 0 <= i < |init| && init[i].id == Some(id) && init[i].issues != [] {
        var i :| 0 <= i < |init| && init[i].id == Some(id) && init[i].issues != [];
        assert rs[i] == init[i];
      }
      if exists i :: 0 <= i < |rs| && rs[i].id == Some(id) && rs[i].issues != [] {
        var i :| 0 <= i < |rs| && rs[i].id == Some(id) && rs[i].issues != [];
        if i < |init| {
          assert init[i] == rs[i];
        }
      }
    }
  }

  /** The entry of a reported id holds the issues of the last report with
      that id that had any. */
  lemma {:induction false} CollectLastWins(rs: seq<Report>, i: int)
    requires 0 <= i < |rs| && rs[i].id.Some? && rs[i].issues != []
    requires forall j :: i < j < |rs| && rs[j].id == rs[i].id ==> rs[j].issues == []
    ensures rs[i].id.value in Collect(rs)
    ensures Collect(rs)[rs[i].id.value] == rs[i].issues
  {
    if i < |rs| - 1 {
      var init := rs[..|rs| - 1];
      assert forall j :: i < j < |init| ==> init[j] == rs[j];
      CollectLastWins(init, i);
    }
  }

  /** In the file's result, an id is present exactly when some campaign
      with that id has issues. */
  lemma FileKeys(cs: seq<Campaign>, id: string)
    ensures id in ValidateFile(Campaigns(cs)) <==>
              exists i :: 0 <= i < |cs| && cs[i].id == Some(id) && ValidateCampaign(cs[i]) != []
  {
    var rs := Reports(cs);
    CollectKeys(rs, id);
    if exists i :: 0 <= i < |rs| && rs[i].id == Some(id) && rs[i].issues != [] {
      var i :| 0 <= i < |rs| && rs[i].id == Some(id) && rs[i].issues != [];
      assert cs[i].id == Some(id) && ValidateCampaign(cs[i]) != [];
    }
  }

  /** `validate_processed_campaigns` after the file is read. */
  function ValidateFile(content: FileContent): (r: map<string, seq<Issue>>)
    ensures content.OtherValue? ==> r == map["file_error" := [NotAList]]
    ensures content.Campaigns? ==> forall k :: k in r ==> r[k] != []
  {
    match content
    case OtherValue => map["file_error" := [NotAList]]
    case Campaigns(cs) => Collect(Reports(cs))
  }
}
