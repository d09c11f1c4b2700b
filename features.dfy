/** The feature builder: `load_raw` normalises the match records read from a
    CSV file, `build_training_table` checks the canonical schema and splits
    the records into features (the two team names) and labels (the result). */
module Features {
  import opened Wrappers
  import opened Frames

  /** The errors the feature builder raises. */
  datatype LoadError =
    | FileNotFound(path: string)           // FileNotFoundError: the CSV path does not exist
    | NoSuchColumn(name: string)           // KeyError from sorting on a column that is absent
    | MissingColumns(names: seq<string>)   // KeyError listing the absent required columns

  /** The canonical column names. */
  const MatchId: string := "match_id"
  const DateColumn: string := "Date"
  const HomeTeam: string := "HomeTeam"
  const AwayTeam: string := "AwayTeam"
  const ResultColumn: string := "FTR"

  // ---------------------------------------------------------------------------
  // Column renaming

  /** The upstream (Kaggle) column names and their canonical replacements. */
  function RenameColumn(c: string): (r: string)
    ensures c == "Home" ==> r == HomeTeam
    ensures c == "Away" ==> r == AwayTeam
    ensures c == "Winner" ==> r == ResultColumn
    ensures c != "Home" && c != "Away" && c != "Winner" ==> r == c
  {
    if c == "Home" then HomeTeam
    else if c == "Away" then AwayTeam
    else if c == "Winner" then ResultColumn
    else c
  }

  /** `df.rename(columns=rename_map)`: each name renamed where it stands. */
  function RenameColumns(cols: seq<string>): (r: seq<string>)
    ensures |r| == |cols|
    ensures forall k :: 0 <= k < |cols| ==> r[k] == RenameColumn(cols[k])
  {
    seq(|cols|, k requires 0 <= k < |cols| => RenameColumn(cols[k]))
  }

  /** Renaming twice renames nothing more: no canonical name is a source name. */
  lemma RenameIdempotent(cols: seq<string>)
    ensures RenameColumns(RenameColumns(cols)) == RenameColumns(cols)
  {
  }

  /** A name that is neither renamed nor produced by renaming (such as `Date`
      or `match_id`) is present after renaming exactly when it was before, at
      the same position. */
  lemma RenameKeeps(cols: seq<string>, n: string)
    requires n != "Home" && n != "Away" && n != "Winner"
    requires n != HomeTeam && n != AwayTeam && n != ResultColumn
    ensures n in RenameColumns(cols) <==> n in cols
    ensures n in cols ==> IndexOf(RenameColumns(cols), n) == IndexOf(cols, n)
  {
    var r := RenameColumns(cols);
    assert forall k :: 0 <= k < |cols| ==> (r[k] == n <==> cols[k] == n);
    if n in cols {
      var i, j := IndexOf(r, n), IndexOf(cols, n);
      assert cols[i] == n && r[j] == n;
    }
  }

  /** Each canonical name is present after renaming exactly when it, or the
      upstream name it replaces, was present before. */
  lemma RenameCanonical(cols: seq<string>)
    ensures HomeTeam in RenameColumns(cols) <==> "Home" in cols || HomeTeam in cols
    ensures AwayTeam in RenameColumns(cols) <==> "Away" in cols || AwayTeam in cols
    ensures ResultColumn in RenameColumns(cols) <==> "Winner" in cols || ResultColumn in cols
  {
    var r := RenameColumns(cols);
    forall n | n == HomeTeam || n == AwayTeam || n == ResultColumn
      ensures n in r <==> n in cols || (n == HomeTeam && "Home" in cols)
                          || (n == AwayTeam && "Away" in cols) || (n == ResultColumn && "Winner" in cols)
    {
      if n in r {
        var k :| 0 <= k < |r| && r[k] == n;
        assert RenameColumn(cols[k]) == n;
      }
      if n in cols {
        assert r[IndexOf(cols, n)] == n;
      }
      if n == HomeTeam && "Home" in cols {
        assert r[IndexOf(cols, "Home")] == n;
      }
      if n == AwayTeam && "Away" in cols {
        assert r[IndexOf(cols, "Away")] == n;
      }
      if n == ResultColumn && "Winner" in cols {
        assert r[IndexOf(cols, "Winner")] == n;
      }
    }
  }

  /** Renaming distinct names gives distinct names unless a file carries both
      an upstream name and its canonical replacement. */
  lemma RenameDistinct(cols: seq<string>)
    requires Distinct(cols)
    requires !("Home" in cols && HomeTeam in cols)
    requires !("Away" in cols && AwayTeam in cols)
    requires !("Winner" in cols && ResultColumn in cols)
    ensures Distinct(RenameColumns(cols))
  {
    var r := RenameColumns(cols);
    forall i, j | 0 <= i < j < |r| ensures r[i] != r[j] {
      if r[i] == r[j] {
        assert false;
      }
    }
  }

  // ---------------------------------------------------------------------------
  // Dates and the sort

  /** The parsed date of a row, `None` when it could not be parsed. */
  function DateKey(row: Row, d: nat): Option<int> {
    if d < |row| && row[d].Stamp? then row[d].date else None
  }

  /** The order `sort_values` uses: parsed dates ascending, unparseable
      (null) dates after every parsed one. */
  predicate DateLe(a: Option<int>, b: Option<int>) {
    b.None? || (a.Some? && a.value <= b.value)
  }

  predicate SortedByDate(rows: seq<Row>, d: nat) {
    forall i, j :: 0 <= i < j < |rows| ==> DateLe(DateKey(rows[i], d), DateKey(rows[j], d))
  }

  /** `pd.to_datetime(..., errors="coerce")` applied to the date cell of a row. */
  function ParseRow(row: Row, d: nat, parse: Cell -> Option<int>): (r: Row)
    requires d < |row|
    ensures |r| == |row| && DateKey(r, d) == parse(row[d])
    ensures forall k :: 0 <= k < |row| && k != d ==> r[k] == row[k]
  {
    row[d := Stamp(parse(row[d]))]
  }

  function ParsedRows(rows: seq<Row>, d: nat, parse: Cell -> Option<int>): (r: seq<Row>)
    requires forall i :: 0 <= i < |rows| ==> d < |rows[i]|
    ensures |r| == |rows|
    ensures forall i :: 0 <= i < |rows| ==> r[i] == ParseRow(rows[i], d, parse)
  {
    seq(|rows|, i requires 0 <= i < |rows| => ParseRow(rows[i], d, parse))
  }

  /** Replaces the date column of every row by its parsed value. */
  method ParseDates(a: array<Row>, d: nat, parse: Cell -> Option<int>)
    requires forall i :: 0 <= i < a.Length ==> d < |a[i]|
    modifies a
    ensures a[..] == ParsedRows(old(a[..]), d, parse)
  {
    var i := 0;
    while i < a.Length
      invariant 0 <= i <= a.Length
      invariant forall k :: 0 <= k < i ==> a[k] == ParseRow(old(a[k]), d, parse)
      invariant forall k :: i <= k < a.Length ==> a[k] == old(a[k])
    {
      a[i] := ParseRow(a[i], d, parse);
      i := i + 1;
    }
  }

  /** Rows `0..i` are in date order except possibly around position `j`,
      the slot the row being inserted currently occupies. */
  predicate SortedExcept(rows: seq<Row>, d: nat, i: nat, j: nat)
    requires i < |rows|
  {
    forall p, q :: 0 <= p < q <= i && q != j ==> DateLe(DateKey(rows[p], d), DateKey(rows[q], d))
  }

  /** Swapping the inserted row one place down keeps the rest in order. */
  lemma SwapStep(s: seq<Row>, t: seq<Row>, d: nat, i: nat, j: nat)
    requires 0 < j <= i < |s| && SortedExcept(s, d, i, j)
    requires !DateLe(DateKey(s[j - 1], d), DateKey(s[j], d))
    requires t == s[j - 1 := s[j]][j := s[j - 1]]
    ensures SortedExcept(t, d, i, j - 1)
    ensures multiset(t) == multiset(s)
  {
  }

  /** Once the inserted row is no earlier than its predecessor, rows `0..i`
      are in order. */
  lemma InsertDone(s: seq<Row>, d: nat, i: nat, j: nat)
    requires j <= i < |s| && SortedExcept(s, d, i, j)
    requires j == 0 || DateLe(DateKey(s[j - 1], d), DateKey(s[j], d))
    ensures forall p, q :: 0 <= p < q <= i ==> DateLe(DateKey(s[p], d), DateKey(s[q], d))
  {
  }

  /** Sorts the rows by date, unparseable dates last. The order of rows with
      equal dates is not part of the contract. */
  method SortByDate(a: array<Row>, d: nat)
    modifies a
    ensures SortedByDate(a[..], d)
    ensures multiset(a[..]) == old(multiset(a[..]))
  {
    var i := 0;
    while i < a.Length
      invariant 0 <= i <= a.Length
      invariant forall p, q :: 0 <= p < q < i ==> DateLe(DateKey(a[p], d), DateKey(a[q], d))
      invariant multiset(a[..]) == old(multiset(a[..]))
    {
      var j := i;
      while 0 < j && !DateLe(DateKey(a[j - 1], d), DateKey(a[j], d))
        invariant 0 <= j <= i
        invariant SortedExcept(a[..], d, i, j)
        invariant multiset(a[..]) == old(multiset(a[..]))
      {
        ghost var before := a[..];
        a[j - 1], a[j] := a[j], a[j - 1];
        SwapStep(before, a[..], d, i, j);
        j := j - 1;
      }
      InsertDone(a[..], d, i, j);
      i := i + 1;
    }
  }

  // ---------------------------------------------------------------------------
  // Match identifiers

  /** Writes the identifier `id` into column `m` of a row; `m` one past the
      last column appends the cell. */
  function WithId(row: Row, m: nat, id: int): (r: Row)
    requires m <= |row|
    ensures |r| == if m < |row| then |row| else |row| + 1
    ensures r[m] == Int(id)
    ensures forall k :: 0 <= k < |row| && k != m ==> r[k] == row[k]
  {
    if m < |row| then row[m := Int(id)] else row + [Int(id)]
  }

  function WithIds(rows: seq<Row>, m: nat): (r: seq<Row>)
    requires forall i :: 0 <= i < |rows| ==> m <= |rows[i]|
    ensures |r| == |rows|
    ensures forall i :: 0 <= i < |rows| ==> r[i] == WithId(rows[i], m, i)
  {
    seq(|rows|, i requires 0 <= i < |rows| => WithId(rows[i], m, i))
  }

  /** `df["match_id"] = df.index`: row i gets identifier i. */
  method AssignMatchIds(a: array<Row>, m: nat)
    requires forall i :: 0 <= i < a.Length ==> m <= |a[i]|
    modifies a
    ensures a[..] == WithIds(old(a[..]), m)
  {
    var i := 0;
    while i < a.Length
      invariant 0 <= i <= a.Length
      invariant forall k :: 0 <= k < i ==> a[k] == WithId(old(a[k]), m, k)
      invariant forall k :: i <= k < a.Length ==> a[k] == old(a[k])
    {
      a[i] := WithId(a[i], m, i);
      i := i + 1;
    }
  }

  /** Where the `match_id` column is written: over an existing column of that
      name, otherwise appended after the last column. */
  function IdPosition(cols: seq<string>): (m: nat)
    ensures m <= |cols|
    ensures m < |cols| <==> MatchId in cols
    ensures m < |cols| ==> cols[m] == MatchId
  {
    if MatchId in cols then IndexOf(cols, MatchId) else |cols|
  }

  function WithIdColumn(cols: seq<string>): (r: seq<string>)
    ensures MatchId in r
    ensures IdPosition(cols) < |r| && r[IdPosition(cols)] == MatchId
    ensures forall n :: n in r <==> n in cols || n == MatchId
    ensures |r| == (if MatchId in cols then |cols| else |cols| + 1) && r[..|cols|] == cols
  {
    if MatchId in cols then cols else cols + [MatchId]
  }

  // ---------------------------------------------------------------------------
  // load_raw

  /** What a CSV reader produces: one cell per column in every row, and
      distinct column names (repeated header names are made unique). */
  predicate ReaderOutput(f: Frame) {
    Rectangular(f) && Distinct(f.columns)
  }

  /** The frame `out` is what loading `raw` gives when the rows, once their
      dates are parsed, are put in the order `sorted`. */
  ghost predicate LoadedFrom(raw: Frame, parse: Cell -> Option<int>, sorted: seq<Row>, out: Frame)
    requires ReaderOutput(raw) && DateColumn in raw.columns
  {
    var d := IndexOf(raw.columns, DateColumn);
    var cols := RenameColumns(raw.columns);
    && multiset(sorted) == multiset(ParsedRows(raw.rows, d, parse))
    && SortedByDate(sorted, d)
    && (forall i :: 0 <= i < |sorted| ==> |sorted[i]| == |cols|)
    && out == Frame(WithIdColumn(cols), WithIds(sorted, IdPosition(cols)))
  }

  lemma PermutationKeepsWidth(s: seq<Row>, t: seq<Row>, w: nat)
    requires multiset(s) == multiset(t)
    requires forall i :: 0 <= i < |s| ==> |s[i]| == w
    ensures forall i :: 0 <= i < |t| ==> |t[i]| == w
  {
    forall i | 0 <= i < |t| ensures |t[i]| == w {
      assert t[i] in multiset(t);
      assert t[i] in s;
    }
  }

  /** Row i carries identifier i in the `match_id` column. */
  predicate IdsDense(f: Frame) {
    && MatchId in f.columns
    && (forall i :: 0 <= i < |f.rows| ==> IndexOf(f.columns, MatchId) < |f.rows[i]|)
    && (forall i :: 0 <= i < |f.rows| ==> f.rows[i][IndexOf(f.columns, MatchId)] == Int(i))
  }

  /** Parsed dates ascend down the rows and every null date comes after all
      parsed ones. */
  predicate DatesAscending(f: Frame) {
    && DateColumn in f.columns
    && forall i, j :: 0 <= i < j < |f.rows| ==>
         var di := DateKey(f.rows[i], IndexOf(f.columns, DateColumn));
         var dj := DateKey(f.rows[j], IndexOf(f.columns, DateColumn));
         (di.None? ==> dj.None?) && (di.Some? && dj.Some? ==> di.value <= dj.value)
  }

  /** `load_raw(csv_path)`. `files` stands for the file system together with
      the CSV reader: a path is in `files` when it exists, and maps to the
      frame read from it. `parse` is the day-first date parser. */
  method LoadRaw(files: map<string, Frame>, path: string, parse: Cell -> Option<int>)
    returns (r: Result<Frame, LoadError>, ghost sorted: seq<Row>)
    requires path in files ==> ReaderOutput(files[path])
    ensures path !in files ==> r == Failure(FileNotFound(path))
    ensures path in files && DateColumn !in files[path].columns ==> r == Failure(NoSuchColumn(DateColumn))
    ensures path in files && DateColumn in files[path].columns ==>
      r.Success? && LoadedFrom(files[path], parse, sorted, r.value)
    ensures r.Success? ==>
      && Rectangular(r.value) && |r.value.rows| == |files[path].rows|
      && IdsDense(r.value) && DatesAscending(r.value)
  {
    sorted := [];
    if path !in files {
      r := Failure(FileNotFound(path));
      return;
    }
    var raw := files[path];
    r, sorted := Normalise(raw, parse);
    if r.Success? {
      LoadedShape(raw, parse, sorted, r.value);
      LoadedIds(raw, parse, sorted, r.value);
      LoadedDates(raw, parse, sorted, r.value);
    }
  }

  /** Everything `load_raw` does once the file is read: parse the dates,
      rename, sort by date and number the rows. */
  method Normalise(raw: Frame, parse: Cell -> Option<int>)
    returns (r: Result<Frame, LoadError>, ghost sorted: seq<Row>)
    requires ReaderOutput(raw)
    ensures DateColumn !in raw.columns ==> r == Failure(NoSuchColumn(DateColumn))
    ensures DateColumn in raw.columns ==> r.Success? && LoadedFrom(raw, parse, sorted, r.value)
  {
    sorted := [];
    var a := new Row[|raw.rows|];
    forall i | 0 <= i < a.Length {
      a[i] := raw.rows[i];
    }
    assert a[..] == raw.rows;
    if DateColumn in raw.columns {
      ParseDates(a, IndexOf(raw.columns, DateColumn), parse);
    }
    var cols := RenameColumns(raw.columns);
    RenameKeeps(raw.columns, DateColumn);
    RenameKeeps(raw.columns, MatchId);
    if DateColumn !in cols {
      r := Failure(NoSuchColumn(DateColumn));
      return;
    }
    var d := IndexOf(cols, DateColumn);
    ghost var parsed := a[..];
    SortByDate(a, d);
    sorted := a[..];
    PermutationKeepsWidth(parsed, sorted, |cols|);
    AssignMatchIds(a, IdPosition(cols));
    r := Success(Frame(WithIdColumn(cols), a[..]));
  }

  /** A loaded frame is rectangular and keeps every row of the file. */
  lemma LoadedShape(raw: Frame, parse: Cell -> Option<int>, sorted: seq<Row>, out: Frame)
    requires ReaderOutput(raw) && DateColumn in raw.columns
    requires LoadedFrom(raw, parse, sorted, out)
    ensures Rectangular(out) && |out.rows| == |raw.rows|
  {
    var d := IndexOf(raw.columns, DateColumn);
    assert |multiset(sorted)| == |multiset(ParsedRows(raw.rows, d, parse))|;
    RenameKeeps(raw.columns, MatchId);
  }

  /** Identifiers of a loaded frame are dense and zero-based: row i has i. */
  lemma LoadedIds(raw: Frame, parse: Cell -> Option<int>, sorted: seq<Row>, out: Frame)
    requires ReaderOutput(raw) && DateColumn in raw.columns
    requires LoadedFrom(raw, parse, sorted, out)
    ensures IdsDense(out)
  {
    var cols := RenameColumns(raw.columns);
    var m := IdPosition(cols);
    assert IndexOf(out.columns, MatchId) == m by {
      if MatchId !in cols {
        assert out.columns == cols + [MatchId];
      }
    }
  }

  /** A loaded frame is in date order, null dates last. */
  lemma LoadedDates(raw: Frame, parse: Cell -> Option<int>, sorted: seq<Row>, out: Frame)
    requires ReaderOutput(raw) && DateColumn in raw.columns
    requires LoadedFrom(raw, parse, sorted, out)
    ensures DatesAscending(out)
  {
    var d := IndexOf(raw.columns, DateColumn);
    var cols := RenameColumns(raw.columns);
    RenameKeeps(raw.columns, DateColumn);
    IdColumnKeeps(cols, DateColumn);
    var m := IdPosition(cols);
    forall i | 0 <= i < |out.rows| ensures DateKey(out.rows[i], d) == DateKey(sorted[i], d) {
      IdKeepsDate(sorted[i], m, i, d);
    }
  }

  /** Adding the `match_id` column moves no other column. */
  lemma IdColumnKeeps(cols: seq<string>, n: string)
    requires n in cols && n != MatchId
    ensures n in WithIdColumn(cols)
    ensures IndexOf(WithIdColumn(cols), n) == IndexOf(cols, n)
    ensures IdPosition(cols) != IndexOf(cols, n)
  {
    var k := IndexOf(cols, n);
    assert forall j :: 0 <= j <= k ==> WithIdColumn(cols)[j] == cols[j];
  }

  /** Writing the identifier leaves the date cell alone. */
  lemma IdKeepsDate(row: Row, m: nat, id: int, d: nat)
    requires m <= |row| && m != d && d < |row|
    ensures DateKey(WithId(row, m, id), d) == DateKey(row, d)
  {
  }

  // ---------------------------------------------------------------------------
  // build_training_table

  /** The canonical schema, in the order the missing ones are reported. */
  const Required: seq<string> := [MatchId, DateColumn, HomeTeam, AwayTeam, ResultColumn]
  const FeatureColumns: seq<string> := [HomeTeam, AwayTeam]
  const LabelColumns: seq<string> := [ResultColumn]

  lemma RequiredDistinct()
    ensures Distinct(Required)
    ensures IndexOf(Required, HomeTeam) == 2
    ensures IndexOf(Required, AwayTeam) == 3
    ensures IndexOf(Required, ResultColumn) == 4
  {
    assert Required[0][0] == 'm' && Required[2][0] == 'H' && Required[3][0] == 'A';
  }

  /** `a` is `b` with some elements left out and the rest kept in order. */
  predicate Subsequence(a: seq<string>, b: seq<string>)
    decreases |b|
  {
    a == [] || (b != [] && ((a[0] == b[0] && Subsequence(a[1..], b[1..])) || Subsequence(a, b[1..])))
  }

  /** `[c for c in required_cols if c not in df.columns]`: the names of `req`
      that are not among `cols`, each in the place it has in `req`. */
  function MissingFrom(req: seq<string>, cols: seq<string>): (m: seq<string>)
    ensures forall k :: 0 <= k < |m| ==> m[k] in req && m[k] !in cols
    ensures forall k :: 0 <= k < |req| && req[k] !in cols ==> req[k] in m
    ensures Subsequence(m, req)
  {
    if req == [] then []
    else
      var rest := MissingFrom(req[1..], cols);
      assert forall k :: 0 <= k < |req| - 1 ==> req[1..][k] == req[k + 1];
      if req[0] in cols then rest else [req[0]] + rest
  }

  /** Features and labels, aligned row by row. The labels are kept as a
      one-column frame: `base["FTR"]` is a Series holding that column's cells. */
  datatype TrainingTable = TrainingTable(x: Frame, y: Frame)

  /** All five canonical columns are present. */
  predicate HasSchema(cols: seq<string>) {
    MatchId in cols && DateColumn in cols && HomeTeam in cols && AwayTeam in cols && ResultColumn in cols
  }

  /** Nothing is reported missing exactly when the schema is complete. */
  lemma NoneMissing(cols: seq<string>)
    ensures MissingFrom(Required, cols) == [] <==> HasSchema(cols)
  {
    var m := MissingFrom(Required, cols);
    assert Required[0] == MatchId && Required[1] == DateColumn && Required[2] == HomeTeam;
    assert Required[3] == AwayTeam && Required[4] == ResultColumn;
    if m != [] {
      assert m[0] in Required;
    }
  }

  /** `build_training_table(df)`. */
  function BuildTrainingTable(df: Frame): (r: Result<TrainingTable, LoadError>)
    requires Rectangular(df)
    ensures r.Success? <==> HasSchema(df.columns)
    ensures r.Failure? ==> r.error == MissingColumns(MissingFrom(Required, df.columns))
    ensures r.Success? ==> |r.value.x.rows| == |df.rows| && |r.value.y.rows| == |df.rows|
    ensures r.Success? ==> forall n :: n in r.value.x.columns <==> n == HomeTeam || n == AwayTeam
    ensures r.Success? ==> forall n :: n in r.value.y.columns <==> n == ResultColumn
  {
    var missing := MissingFrom(Required, df.columns);
    NoneMissing(df.columns);
    if missing != [] then
      Failure(MissingColumns(missing))
    else
      var base := Select(df, Required);
      SelectColumns(df, Required);
      SelectColumns(base, FeatureColumns);
      SelectColumns(base, LabelColumns);
      Success(TrainingTable(Select(base, FeatureColumns), Select(base, LabelColumns)))
  }

  /** Every feature and label column is the same-named column of the input,
      copied row by row, so row i of X and of y both come from input row i. */
  lemma TrainingTableAligned(df: Frame)
    requires Rectangular(df) && BuildTrainingTable(df).Success?
    ensures ColumnsCopied(BuildTrainingTable(df).value.x, df)
    ensures ColumnsCopied(BuildTrainingTable(df).value.y, df)
  {
    var base := Select(df, Required);
    SelectColumns(df, Required);
    SelectCopies(df, Required);
    SelectCopies(base, FeatureColumns);
    SelectCopies(base, LabelColumns);
    ColumnsCopiedTransitive(Select(base, FeatureColumns), base, df);
    ColumnsCopiedTransitive(Select(base, LabelColumns), base, df);
  }

  /** With distinct input column names, X is exactly (HomeTeam, AwayTeam) and
      y exactly FTR, taken from the same input row. */
  lemma TrainingTableColumns(df: Frame)
    requires Rectangular(df) && Distinct(df.columns) && BuildTrainingTable(df).Success?
    ensures BuildTrainingTable(df).value.x.columns == FeatureColumns
    ensures BuildTrainingTable(df).value.y.columns == LabelColumns
    ensures forall i :: 0 <= i < |df.rows| ==>
      && BuildTrainingTable(df).value.x.rows[i]
           == [df.rows[i][IndexOf(df.columns, HomeTeam)], df.rows[i][IndexOf(df.columns, AwayTeam)]]
      && BuildTrainingTable(df).value.y.rows[i] == [df.rows[i][IndexOf(df.columns, ResultColumn)]]
  {
    var base := Select(df, Required);
    BaseColumns(df);
    NoneMissing(df.columns);
    RequiredDistinct();
    PickFeatures(base);
    PickLabel(base);
  }

  /** From the five required columns in order, X takes the third and fourth. */
  lemma PickFeatures(base: Frame)
    requires Rectangular(base) && Distinct(base.columns) && |base.columns| == 5
    requires base.columns[2] == HomeTeam && base.columns[3] == AwayTeam
    ensures FeatureColumns[0] in base.columns && FeatureColumns[1] in base.columns
    ensures Select(base, FeatureColumns).columns == FeatureColumns
    ensures forall i :: 0 <= i < |base.rows| ==>
      Select(base, FeatureColumns).rows[i] == [base.rows[i][2], base.rows[i][3]]
  {
    SelectAt(base, FeatureColumns, [2, 3]);
    forall i | 0 <= i < |base.rows|
      ensures Project(base.rows[i], [2, 3]) == [base.rows[i][2], base.rows[i][3]]
    {
    }
  }

  /** From the five required columns in order, y takes the fifth. */
  lemma PickLabel(base: Frame)
    requires Rectangular(base) && Distinct(base.columns) && |base.columns| == 5
    requires base.columns[4] == ResultColumn
    ensures LabelColumns[0] in base.columns
    ensures Select(base, LabelColumns).columns == LabelColumns
    ensures forall i :: 0 <= i < |base.rows| ==>
      Select(base, LabelColumns).rows[i] == [base.rows[i][4]]
  {
    SelectAt(base, LabelColumns, [4]);
    forall i | 0 <= i < |base.rows|
      ensures Project(base.rows[i], [4]) == [base.rows[i][4]]
    {
    }
  }

  /** With distinct input names, `df[required_cols]` is the five required
      columns in their fixed order. */
  lemma BaseColumns(df: Frame)
    requires Rectangular(df) && Distinct(df.columns) && HasSchema(df.columns)
    ensures forall k :: 0 <= k < |Required| ==> Required[k] in df.columns
    ensures Select(df, Required).columns == Required
    ensures forall i :: 0 <= i < |df.rows| ==>
      && Select(df, Required).rows[i][2] == df.rows[i][IndexOf(df.columns, HomeTeam)]
      && Select(df, Required).rows[i][3] == df.rows[i][IndexOf(df.columns, AwayTeam)]
      && Select(df, Required).rows[i][4] == df.rows[i][IndexOf(df.columns, ResultColumn)]
  {
    NoneMissing(df.columns);
    SelectPositionsDistinct(df.columns, Required);
    SelectDistinct(df, Required);
    var p := SelectPositions(df.columns, Required);
    assert p[2] == IndexOf(df.columns, HomeTeam);
    assert p[3] == IndexOf(df.columns, AwayTeam);
    assert p[4] == IndexOf(df.columns, ResultColumn);
  }

  /** After a load, the training table can be built exactly when the file had
      the home team, the away team and the result under either their upstream
      or their canonical names. */
  lemma LoadThenBuild(raw: Frame, parse: Cell -> Option<int>, sorted: seq<Row>, out: Frame)
    requires ReaderOutput(raw) && DateColumn in raw.columns
    requires LoadedFrom(raw, parse, sorted, out)
    ensures Rectangular(out)
    ensures BuildTrainingTable(out).Success? <==>
      && ("Home" in raw.columns || HomeTeam in raw.columns)
      && ("Away" in raw.columns || AwayTeam in raw.columns)
      && ("Winner" in raw.columns || ResultColumn in raw.columns)
  {
    LoadedShape(raw, parse, sorted, out);
    var cols := RenameColumns(raw.columns);
    RenameKeeps(raw.columns, DateColumn);
    RenameCanonical(raw.columns);
    SchemaWithId(cols);
  }

  /** Once `match_id` is added, the schema is complete exactly when the team
      and result columns are present, given a date column. */
  lemma SchemaWithId(cols: seq<string>)
    requires DateColumn in cols
    ensures HasSchema(WithIdColumn(cols)) <==> HomeTeam in cols && AwayTeam in cols && ResultColumn in cols
  {
  }
}
