/** The inference service's request and response contract: the request body
    with its team names trimmed, the one-row feature frame built from it, the
    constant health response, and the translation of the classifier's class
    codes into human labels. The classifier itself is a parameter. */
module Api {
  import opened Wrappers
  import opened Frames

  // ----- str.strip -----

  /** The characters Python's `str.strip()` removes by default: those for
      which `str.isspace()` holds. */
  predicate IsSpace(c: char) {
    || ('\t' <= c <= '\r')
    || ('\U{1C}' <= c <= '\U{1F}')
    || c == ' '
    || c == '\U{85}'
    || c == '\U{A0}'
    || c == '\U{1680}'
    || ('\U{2000}' <= c <= '\U{200A}')
    || c == '\U{2028}'
    || c == '\U{2029}'
    || c == '\U{202F}'
    || c == '\U{205F}'
    || c == '\U{3000}'
  }

  /** All characters of `pad` are whitespace. */
  predicate Blank(pad: string) {
    forall k :: 0 <= k < |pad| ==> IsSpace(pad[k])
  }

  /** `r` is `s[i..j]`, everything outside `[i, j)` is whitespace, and `r`
      neither starts nor ends with whitespace. */
  ghost predicate Strips(s: string, r: string, i: nat, j: nat) {
    && i <= j <= |s| && r == s[i..j]
    && (forall k :: 0 <= k < i ==> IsSpace(s[k]))
    && (forall k :: j <= k < |s| ==> IsSpace(s[k]))
    && (r == [] || (!IsSpace(r[0]) && !IsSpace(r[|r| - 1])))
  }

  /** `r` is `s` with its surrounding whitespace removed. */
  ghost predicate Stripped(s: string, r: string) {
    exists i: nat, j: nat :: Strips(s, r, i, j)
  }

  /** Removes leading whitespace only. */
  function TrimStart(s: string): (r: string)
    ensures |r| <= |s| && r == s[|s| - |r|..]
    ensures forall k :: 0 <= k < |s| - |r| ==> IsSpace(s[k])
    ensures r == [] || !IsSpace(r[0])
    decreases |s|
  {
    if s != [] && IsSpace(s[0]) then TrimStart(s[1..]) else s
  }

  /** Removes trailing whitespace only. */
  function TrimEnd(s: string): (r: string)
    ensures |r| <= |s| && r == s[..|r|]
    ensures forall k :: |r| <= k < |s| ==> IsSpace(s[k])
    ensures r == [] || !IsSpace(r[|r| - 1])
    decreases |s|
  {
    if s != [] && IsSpace(s[|s| - 1]) then TrimEnd(s[..|s| - 1]) else s
  }

  /** `v.strip()`. */
  function Trim(s: string): (r: string)
    ensures Stripped(s, r)
  {
    var t := TrimStart(s);
    var r := TrimEnd(t);
    StripsBothEnds(s, t, r);
    r
  }

  /** Trailing whitespace removed from what is left after removing leading
      whitespace is whitespace removed from both ends. */
  lemma StripsBothEnds(s: string, t: string, r: string)
    requires |t| <= |s| && t == s[|s| - |t|..]
    requires forall k :: 0 <= k < |s| - |t| ==> IsSpace(s[k])
    requires t == [] || !IsSpace(t[0])
    requires |r| <= |t| && r == t[..|r|]
    requires forall k :: |r| <= k < |t| ==> IsSpace(t[k])
    requires r == [] || !IsSpace(r[|r| - 1])
    ensures Strips(s, r, |s| - |t|, |s| - |t| + |r|)
  {
    var i := |s| - |t|;
    assert r == s[i..i + |r|];
    forall k | i + |r| <= k < |s| ensures IsSpace(s[k]) {
      assert s[k] == t[k - i];
    }
    if r != [] {
      assert r[0] == t[0];
    }
  }

  /** Only one string is `s` stripped: whatever removes exactly the
      surrounding whitespace agrees with `Trim`. */
  lemma StrippedUnique(s: string, r1: string, r2: string)
    requires Stripped(s, r1) && Stripped(s, r2)
    ensures r1 == r2
  {
    var i1: nat, j1: nat :| Strips(s, r1, i1, j1);
    var i2: nat, j2: nat :| Strips(s, r2, i2, j2);
    if r1 != [] && r2 != [] {
      if i1 < i2 {
        assert false;
      } else if i2 < i1 {
        assert false;
      }
      if j1 < j2 {
        assert false;
      } else if j2 < j1 {
        assert false;
      }
    } else if r1 != [] {
      assert false;
    } else if r2 != [] {
      assert false;
    }
  }

  lemma TrimUnique(s: string, r: string)
    requires Stripped(s, r)
    ensures Trim(s) == r
  {
    StrippedUnique(s, Trim(s), r);
  }

  /** Stripping twice is stripping once. */
  lemma TrimIdempotent(s: string)
    ensures Trim(Trim(s)) == Trim(s)
  {
    var r := Trim(s);
    var i: nat, j: nat :| Strips(s, r, i, j);
    assert Strips(r, r, 0, |r|);
    TrimUnique(r, r);
  }

  /** Extra whitespace around a name does not change the stripped name. */
  lemma TrimPadding(pre: string, s: string, post: string)
    requires Blank(pre)
    requires Blank(post)
    ensures Trim(pre + s + post) == Trim(s)
  {
    StrippedPadding(pre, s, post, Trim(s));
    TrimUnique(pre + s + post, Trim(s));
  }

  lemma StrippedPadding(pre: string, s: string, post: string, r: string)
    requires Blank(pre)
    requires Blank(post)
    requires Stripped(s, r)
    ensures Stripped(pre + s + post, r)
  {
    var i: nat, j: nat :| Strips(s, r, i, j);
    var left := pre + s;
    PadLeft(pre, s, r, i, j);
    PadRight(left, post, r, |pre| + i, |pre| + j);
  }

  lemma PadLeft(pre: string, s: string, r: string, i: nat, j: nat)
    requires Blank(pre)
    requires Strips(s, r, i, j)
    ensures Strips(pre + s, r, |pre| + i, |pre| + j)
  {
    var p := pre + s;
    assert p[|pre| + i..|pre| + j] == s[i..j];
    forall k | |pre| <= k < |p| ensures p[k] == s[k - |pre|] {
    }
  }

  lemma PadRight(s: string, post: string, r: string, i: nat, j: nat)
    requires Blank(post)
    requires Strips(s, r, i, j)
    ensures Strips(s + post, r, i, j)
  {
    var p := s + post;
    assert p[i..j] == s[i..j];
    forall k | |s| <= k < |p| ensures p[k] == post[k - |s|] {
    }
  }

  // ----- the request body -----

  /** The request body of `/predict`: two team names and six form figures. */
  datatype MatchFeatures = MatchFeatures(
    homeTeam: string,
    awayTeam: string,
    homePtsLast5: real,
    homeGfAvgLast5: real,
    homeGaAvgLast5: real,
    awayPtsLast5: real,
    awayGfAvgLast5: real,
    awayGaAvgLast5: real)

  /** The field validator: both team names stripped, every other field kept. */
  function Validate(raw: MatchFeatures): (m: MatchFeatures)
    ensures Stripped(raw.homeTeam, m.homeTeam) && Stripped(raw.awayTeam, m.awayTeam)
    ensures m.(homeTeam := raw.homeTeam, awayTeam := raw.awayTeam) == raw
  {
    raw.(homeTeam := Trim(raw.homeTeam), awayTeam := Trim(raw.awayTeam))
  }

  /** Validating an already validated request changes nothing. */
  lemma ValidateIdempotent(raw: MatchFeatures)
    ensures Validate(Validate(raw)) == Validate(raw)
  {
    TrimIdempotent(raw.homeTeam);
    TrimIdempotent(raw.awayTeam);
  }

  /** The field names of the request, in declaration order. */
  const FieldNames: seq<string> := [
    "home_team", "away_team",
    "home_pts_last5", "home_gf_avg_last5", "home_ga_avg_last5",
    "away_pts_last5", "away_gf_avg_last5", "away_ga_avg_last5"]

  /** Reads a request back from a feature row laid out as `FieldNames`. */
  function FromRow(row: Row): Option<MatchFeatures> {
    if |row| == 8 && row[0].Text? && row[1].Text?
       && row[2].Num? && row[3].Num? && row[4].Num? && row[5].Num? && row[6].Num? && row[7].Num?
    then Some(MatchFeatures(row[0].text, row[1].text,
                            row[2].x, row[3].x, row[4].x, row[5].x, row[6].x, row[7].x))
    else None
  }

  /** `[payload.model_dump()]`: a one-element list of records, represented
      as a one-row frame of the eight fields, one column per field in
      declaration order, from which the request can be read back unchanged. */
  function Dump(m: MatchFeatures): (f: Frame)
    ensures f.columns == FieldNames && Distinct(f.columns)
    ensures Rectangular(f) && |f.rows| == 1
    ensures FromRow(f.rows[0]) == Some(m)
  {
    Frame(FieldNames,
          [[Text(m.homeTeam), Text(m.awayTeam),
            Num(m.homePtsLast5), Num(m.homeGfAvgLast5), Num(m.homeGaAvgLast5),
            Num(m.awayPtsLast5), Num(m.awayGfAvgLast5), Num(m.awayGaAvgLast5)]])
  }

  // ----- health -----

  /** `GET /health`: a single `status` entry, always `ok`. */
  function Health(): (r: map<string, string>)
    ensures r.Keys == {"status"} && r["status"] == "ok"
  {
    map["status" := "ok"]
  }

  // ----- class labels -----

  const HomeCode: string := "H"
  const DrawCode: string := "D"
  const AwayCode: string := "A"
  const HomeWin: string := "home_win"
  const Draw: string := "draw"
  const AwayWin: string := "away_win"

  predicate IsCode(c: string) {
    c == HomeCode || c == DrawCode || c == AwayCode
  }

  predicate IsHumanLabel(c: string) {
    c == HomeWin || c == Draw || c == AwayWin
  }

  /** `label_map.get(c, c)`. */
  function HumanLabel(c: string): (r: string)
    ensures c == HomeCode ==> r == HomeWin
    ensures c == DrawCode ==> r == Draw
    ensures c == AwayCode ==> r == AwayWin
    ensures !IsCode(c) ==> r == c
  {
    if c == HomeCode then HomeWin
    else if c == DrawCode then Draw
    else if c == AwayCode then AwayWin
    else c
  }

  /** The reverse translation, a reference for what the label map loses. */
  function CodeOf(name: string): (c: string) {
    if name == HomeWin then HomeCode
    else if name == Draw then DrawCode
    else if name == AwayWin then AwayCode
    else name
  }

  /** A class code can be recovered from its label unless the classifier
      already used a human label as a code. */
  lemma CodeOfHumanLabel(c: string)
    requires !IsHumanLabel(c)
    ensures CodeOf(HumanLabel(c)) == c
  {
  }

  /** Labelling a label changes nothing. */
  lemma HumanLabelIdempotent(c: string)
    ensures HumanLabel(HumanLabel(c)) == HumanLabel(c)
  {
  }

  /** The list comprehension over the classifier's classes. */
  function MapClasses(classes: seq<string>): (r: seq<string>)
    ensures |r| == |classes|
    ensures forall i :: 0 <= i < |classes| ==> r[i] == HumanLabel(classes[i])
  {
    seq(|classes|, i requires 0 <= i < |classes| => HumanLabel(classes[i]))
  }

  /** The reverse translation, element by element. */
  function UnmapClasses(labels: seq<string>): (r: seq<string>)
    ensures |r| == |labels|
    ensures forall i :: 0 <= i < |labels| ==> r[i] == CodeOf(labels[i])
  {
    seq(|labels|, i requires 0 <= i < |labels| => CodeOf(labels[i]))
  }

  /** The translation keeps the class list recoverable, so neither order nor
      membership is lost, as long as no code is itself a human label. */
  lemma MapClassesRoundTrip(classes: seq<string>)
    requires forall i :: 0 <= i < |classes| ==> !IsHumanLabel(classes[i])
    ensures UnmapClasses(MapClasses(classes)) == classes
  {
    var r := UnmapClasses(MapClasses(classes));
    forall i | 0 <= i < |classes| ensures r[i] == classes[i] {
      CodeOfHumanLabel(classes[i]);
    }
  }

  /** Distinct classes get distinct labels under the same condition. */
  lemma MapClassesDistinct(classes: seq<string>)
    requires Distinct(classes)
    requires forall i :: 0 <= i < |classes| ==> !IsHumanLabel(classes[i])
    ensures Distinct(MapClasses(classes))
  {
    var r := MapClasses(classes);
    forall i, j | 0 <= i < j < |r| ensures r[i] != r[j] {
      CodeOfHumanLabel(classes[i]);
      CodeOfHumanLabel(classes[j]);
    }
  }

  /** Mapping a concatenation maps each part in place. */
  lemma MapClassesAppend(a: seq<string>, b: seq<string>)
    ensures MapClasses(a + b) == MapClasses(a) + MapClasses(b)
  {
  }

  // ----- predict -----

  /** The `/predict` response. */
  datatype Prediction = Prediction(classes: seq<string>, probabilities: seq<real>)

  /** `predict(payload)`: `classes` are the classifier's class codes and
      `predictProba` the classifier's probabilities for the first row of a
      feature frame. */
  function Predict(payload: MatchFeatures, classes: seq<string>, predictProba: Frame -> seq<real>): (r: Prediction)
    ensures |r.classes| == |classes|
    ensures forall i :: 0 <= i < |classes| ==> r.classes[i] == HumanLabel(classes[i])
    ensures r.probabilities == predictProba(Dump(payload))
  {
    Prediction(MapClasses(classes), predictProba(Dump(payload)))
  }

  /** A request whose team names carry extra surrounding whitespace gets the
      same response as the unpadded request. */
  lemma PredictIgnoresPadding(m: MatchFeatures, homePre: string, homePost: string,
                              awayPre: string, awayPost: string,
                              classes: seq<string>, predictProba: Frame -> seq<real>)
    requires Blank(homePre) && Blank(homePost) && Blank(awayPre) && Blank(awayPost)
    ensures Predict(Validate(m.(homeTeam := homePre + m.homeTeam + homePost,
                                awayTeam := awayPre + m.awayTeam + awayPost)), classes, predictProba)
         == Predict(Validate(m), classes, predictProba)
  {
    TrimPadding(homePre, m.homeTeam, homePost);
    TrimPadding(awayPre, m.awayTeam, awayPost);
  }
}
