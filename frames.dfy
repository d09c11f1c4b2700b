/** A data frame as the feature builder sees it: an ordered list of column
    names and a list of rows, each row holding one cell per column. */
module Frames {
  import opened Wrappers

  /** One cell. `Stamp` is a parsed date (`None` when the text could not be
      parsed), `Int` an integer such as a match identifier, `Num` a float
      carried through unchanged. */
  datatype Cell = Text(text: string) | Num(x: real) | Stamp(date: Option<int>) | Int(n: int)

  type Row = seq<Cell>

  datatype Frame = Frame(columns: seq<string>, rows: seq<Row>)

  /** Every row has exactly one cell per column. */
  predicate Rectangular(f: Frame) {
    forall i :: 0 <= i < |f.rows| ==> |f.rows[i]| == |f.columns|
  }

  predicate Distinct<T(==)>(s: seq<T>) {
    forall i, j :: 0 <= i < j < |s| ==> s[i] != s[j]
  }

  /** Position of the first column named `x`. */
  function IndexOf(s: seq<string>, x: string): (k: nat)
    requires x in s
    ensures k < |s| && s[k] == x
    ensures forall i :: 0 <= i < k ==> s[i] != x
  {
    if s[0] == x then 0 else 1 + IndexOf(s[1..], x)
  }

  lemma IndexOfDistinct(s: seq<string>, k: nat)
    requires Distinct(s) && k < |s|
    ensures IndexOf(s, s[k]) == k
  {
    var j := IndexOf(s, s[k]);
    if j != k {
      assert false;
    }
  }

  /** The positions, in increasing order, of every column named `n`. */
  function Positions(cols: seq<string>, n: string): (p: seq<nat>)
    ensures forall k :: 0 <= k < |p| ==> p[k] < |cols| && cols[p[k]] == n
    ensures forall i :: 0 <= i < |cols| && cols[i] == n ==> i in p
    ensures forall k, l :: 0 <= k < l < |p| ==> p[k] < p[l]
  {
    if cols == [] then []
    else
      var rest := Positions(cols[..|cols| - 1], n);
      if cols[|cols| - 1] == n then rest + [|cols| - 1] else rest
  }

  lemma PositionsAbsent(cols: seq<string>, n: string)
    requires n !in cols
    ensures Positions(cols, n) == []
    decreases |cols|
  {
    if cols != [] {
      var front := cols[..|cols| - 1];
      assert forall x :: x in front ==> x in cols;
      PositionsAbsent(front, n);
    }
  }

  /** With distinct column names a present name has exactly one position. */
  lemma PositionsDistinct(cols: seq<string>, n: string)
    requires Distinct(cols) && n in cols
    ensures Positions(cols, n) == [IndexOf(cols, n)]
    decreases |cols|
  {
    var front, last := cols[..|cols| - 1], cols[|cols| - 1];
    if last == n {
      assert n !in front by {
        forall i | 0 <= i < |front| ensures front[i] != n {
          assert cols[i] != cols[|cols| - 1];
        }
      }
      PositionsAbsent(front, n);
      IndexOfDistinct(cols, |cols| - 1);
    } else {
      assert cols == front + [last];
      assert n in front;
      PositionsDistinct(front, n);
      IndexOfDistinct(cols, IndexOf(front, n));
    }
  }

  /** The positions that `df[names]` selects: for each name in turn, all the
      columns carrying it. */
  function SelectPositions(cols: seq<string>, names: seq<string>): (p: seq<nat>)
    ensures forall k :: 0 <= k < |p| ==> p[k] < |cols| && cols[p[k]] in names
  {
    if names == [] then []
    else
      var front := names[..|names| - 1];
      var last := names[|names| - 1];
      var p := SelectPositions(cols, front) + Positions(cols, last);
      assert forall k :: 0 <= k < |p| ==> cols[p[k]] in names by {
        assert forall x :: x in front ==> x in names;
      }
      p
  }

  /** Every column carrying one of the names is selected. */
  lemma {:induction false} SelectPositionsCover(cols: seq<string>, names: seq<string>, i: nat)
    requires i < |cols| && cols[i] in names
    ensures i in SelectPositions(cols, names)
  {
    var front, last := names[..|names| - 1], names[|names| - 1];
    if cols[i] == last {
      assert i in Positions(cols, last);
    } else {
      assert names == front + [last];
      SelectPositionsCover(cols, front, i);
    }
  }

  lemma {:induction false} SelectPositionsDistinct(cols: seq<string>, names: seq<string>)
    requires Distinct(cols)
    requires forall k :: 0 <= k < |names| ==> names[k] in cols
    ensures |SelectPositions(cols, names)| == |names|
    ensures forall k :: 0 <= k < |names| ==> SelectPositions(cols, names)[k] == IndexOf(cols, names[k])
  {
    if names != [] {
      var front, last := names[..|names| - 1], names[|names| - 1];
      SelectPositionsDistinct(cols, front);
      PositionsDistinct(cols, last);
      var q := SelectPositions(cols, front) + [IndexOf(cols, last)];
      assert SelectPositions(cols, names) == q;
      forall k | 0 <= k < |names| ensures q[k] == IndexOf(cols, names[k]) {
        if k < |front| {
          assert names[k] == front[k];
        } else {
          assert k == |names| - 1;
        }
      }
    }
  }

  /** One row restricted to the given positions, in their order. */
  function Project(row: Row, p: seq<nat>): (r: Row)
    requires forall k :: 0 <= k < |p| ==> p[k] < |row|
    ensures |r| == |p|
    ensures forall k :: 0 <= k < |p| ==> r[k] == row[p[k]]
  {
    seq(|p|, k requires 0 <= k < |p| => row[p[k]])
  }

  /** Column selection `df[names]` (every name is present at each call site;
      pandas would raise otherwise). Row i of the result is built from row i
      of `f` alone, from columns whose names are in `names`. */
  function Select(f: Frame, names: seq<string>): (r: Frame)
    requires Rectangular(f)
    requires forall k :: 0 <= k < |names| ==> names[k] in f.columns
    ensures Rectangular(r) && |r.rows| == |f.rows|
    ensures |r.columns| == |SelectPositions(f.columns, names)|
    ensures forall k :: 0 <= k < |r.columns| ==> r.columns[k] in names
    ensures forall i, k :: 0 <= i < |r.rows| && 0 <= k < |r.columns| ==>
      var j := SelectPositions(f.columns, names)[k];
      f.columns[j] == r.columns[k] && r.rows[i][k] == f.rows[i][j]
  {
    var p := SelectPositions(f.columns, names);
    Frame(seq(|p|, k requires 0 <= k < |p| => f.columns[p[k]]),
          seq(|f.rows|, i requires 0 <= i < |f.rows| => Project(f.rows[i], p)))
  }

  /** `df[names]` has a column of every requested name and of no other. */
  lemma SelectColumns(f: Frame, names: seq<string>)
    requires Rectangular(f)
    requires forall k :: 0 <= k < |names| ==> names[k] in f.columns
    ensures forall n :: n in Select(f, names).columns <==> n in names
  {
    var r, p := Select(f, names), SelectPositions(f.columns, names);
    forall n | n in names ensures n in r.columns {
      assert exists k :: 0 <= k < |names| && names[k] == n;
      var i := IndexOf(f.columns, n);
      SelectPositionsCover(f.columns, names, i);
      var k :| 0 <= k < |p| && p[k] == i;
      assert r.columns[k] == n;
    }
  }

  /** With distinct column names, `df[names]` has exactly the columns `names`
      in that order, and row i takes each cell from row i of `f`. */
  lemma SelectDistinct(f: Frame, names: seq<string>)
    requires Rectangular(f) && Distinct(f.columns)
    requires forall k :: 0 <= k < |names| ==> names[k] in f.columns
    ensures Select(f, names).columns == names
    ensures forall i, k :: 0 <= i < |f.rows| && 0 <= k < |names| ==>
      Select(f, names).rows[i][k] == f.rows[i][IndexOf(f.columns, names[k])]
  {
    SelectPositionsDistinct(f.columns, names);
  }

  /** Selection by names whose positions are known: with distinct input
      names, `df[names]` is the projection on those positions. */
  lemma SelectAt(f: Frame, names: seq<string>, pos: seq<nat>)
    requires Rectangular(f) && Distinct(f.columns)
    requires |pos| == |names|
    requires forall k :: 0 <= k < |names| ==> pos[k] < |f.columns| && f.columns[pos[k]] == names[k]
    ensures forall k :: 0 <= k < |names| ==> names[k] in f.columns
    ensures Select(f, names).columns == names
    ensures forall i :: 0 <= i < |f.rows| ==> Select(f, names).rows[i] == Project(f.rows[i], pos)
  {
    forall k | 0 <= k < |names| ensures IndexOf(f.columns, names[k]) == pos[k] {
      IndexOfDistinct(f.columns, pos[k]);
    }
    SelectDistinct(f, names);
  }

  /** Column k of `out` is column j of `src`, copied row by row. */
  ghost predicate ColumnCopy(out: Frame, src: Frame, k: nat, j: nat)
    requires k < |out.columns| && |out.rows| == |src.rows|
  {
    && j < |src.columns| && src.columns[j] == out.columns[k]
    && forall i :: 0 <= i < |src.rows| ==>
         k < |out.rows[i]| && j < |src.rows[i]| && out.rows[i][k] == src.rows[i][j]
  }

  /** Every column of `out` is a column of `src` with the same name, copied
      row by row: row i of `out` comes from row i of `src`. */
  ghost predicate ColumnsCopied(out: Frame, src: Frame) {
    && |out.rows| == |src.rows|
    && forall k :: 0 <= k < |out.columns| ==> CopiedColumn(out, src, k)
  }

  ghost predicate CopiedColumn(out: Frame, src: Frame, k: nat)
    requires k < |out.columns| && |out.rows| == |src.rows|
  {
    exists j :: ColumnCopy(out, src, k, j)
  }

  lemma SelectCopies(f: Frame, names: seq<string>)
    requires Rectangular(f)
    requires forall k :: 0 <= k < |names| ==> names[k] in f.columns
    ensures ColumnsCopied(Select(f, names), f)
  {
    var r, p := Select(f, names), SelectPositions(f.columns, names);
    forall k | 0 <= k < |r.columns| ensures CopiedColumn(r, f, k) {
      assert ColumnCopy(r, f, k, p[k]);
    }
  }

  lemma ColumnsCopiedTransitive(a: Frame, b: Frame, c: Frame)
    requires ColumnsCopied(a, b) && ColumnsCopied(b, c)
    ensures ColumnsCopied(a, c)
  {
    forall k | 0 <= k < |a.columns| ensures CopiedColumn(a, c, k) {
      assert CopiedColumn(a, b, k);
      var jb :| ColumnCopy(a, b, k, jb);
      assert CopiedColumn(b, c, jb);
      var jc :| ColumnCopy(b, c, jb, jc);
      assert ColumnCopy(a, c, k, jc);
    }
  }
}
