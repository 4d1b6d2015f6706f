/**
  * The table model under the pandas calls. A cell is a number, a text or
  * missing (pandas' NaN / None); a row maps column names to cells; a frame
  * has its ordered column names, the set of columns whose dtype is numeric,
  * and its rows. The functions here are the pandas operations the core uses,
  * and `DataFrame` is a frame that the core's methods update in place.
  */
module Frames {
  import opened Wrappers
  import opened Text

  datatype Cell = Num(x: real) | Str(s: string) | Missing

  type Row = map<string, Cell>

  datatype Frame = Frame(cols: seq<string>, numeric: set<string>, rows: seq<Row>)

  /** The exceptions the core raises, by what they mean. */
  datatype Error =
    | KeyError(column: string)            // `df[col]` on a column the frame does not have
    | StrOnNumeric(column: string)        // `.str` on a numeric column (AttributeError)
    | NonIntegralCode(column: string)     // `astype("Int64")` of a fractional code (TypeError)
    | InvalidLevel(name: string)          // ValueError: not an administrative level
    | NotFoundAfterMerge(column: string)  // ValueError: value column absent after the join
    | UnmatchedRegions(count: nat)        // ValueError: boundary rows left without a value
    | MissingPlotColumn(column: string)   // ValueError: plot asked for an absent column
    | NoValueRequested                    // ValueError: neither value nor computed column given
    | DataNotLoaded                       // merge before load_data (AttributeError on self.df)
    | MergeKeyTypes(left: string, right: string)  // ValueError: merging a numeric key column with a text one

  datatype Result<T> = Ok(value: T) | Err(error: Error)

  /** A cell of a row; a column the row does not hold reads as missing, as after a concat. */
  function At(r: Row, c: string): Cell {
    if c in r then r[c] else Missing
  }

  predicate IsNumericCell(c: Cell) { c.Num? || c.Missing? }

  /** The dtype flags agree with the cells: a numeric column holds only numbers and NaN. */
  ghost predicate Valid(f: Frame) {
    (forall c :: c in f.numeric ==> c in f.cols) &&
    (forall i, c :: 0 <= i < |f.rows| && c in f.numeric ==> IsNumericCell(At(f.rows[i], c)))
  }

  function Column(f: Frame, c: string): (r: seq<Cell>)
    ensures |r| == |f.rows|
    ensures forall i :: 0 <= i < |f.rows| ==> r[i] == At(f.rows[i], c)
  {
    seq(|f.rows|, i requires 0 <= i < |f.rows| => At(f.rows[i], c))
  }

  /** A cell-wise transformation of column `c` (a vectorised pandas expression). */
  function Apply(f: Frame, c: string, g: Cell -> Cell): (r: seq<Cell>)
    ensures |r| == |f.rows|
    ensures forall i :: 0 <= i < |f.rows| ==> r[i] == g(At(f.rows[i], c))
  {
    seq(|f.rows|, i requires 0 <= i < |f.rows| => g(At(f.rows[i], c)))
  }

  /** A cell-wise combination of two columns. */
  function Apply2(f: Frame, a: string, b: string, g: (Cell, Cell) -> Cell): (r: seq<Cell>)
    ensures |r| == |f.rows|
    ensures forall i :: 0 <= i < |f.rows| ==> r[i] == g(At(f.rows[i], a), At(f.rows[i], b))
  {
    seq(|f.rows|, i requires 0 <= i < |f.rows| => g(At(f.rows[i], a), At(f.rows[i], b)))
  }

  /** The column list after `df[c] = ...`: an existing column keeps its place, a new one goes last. */
  function AddCol(cols: seq<string>, c: string): (r: seq<string>)
    ensures c in r
    ensures forall d :: d in r <==> d in cols || d == c
  {
    if c in cols then cols else cols + [c]
  }

  /**
    * `df[c] = cells`: column `c` now holds `cells`, every other cell of every
    * row is unchanged, and the dtype of `c` is numeric exactly when `isNum`.
    */
  function WithColumn(f: Frame, c: string, cells: seq<Cell>, isNum: bool): (r: Frame)
    requires |cells| == |f.rows|
    ensures r.cols == AddCol(f.cols, c) && |r.rows| == |f.rows|
    ensures forall i :: 0 <= i < |f.rows| ==> At(r.rows[i], c) == cells[i]
    ensures forall i, d :: 0 <= i < |f.rows| && d != c ==> At(r.rows[i], d) == At(f.rows[i], d)
    ensures r.numeric == if isNum then f.numeric + {c} else f.numeric - {c}
    ensures Valid(f) && (isNum ==> forall i :: 0 <= i < |cells| ==> IsNumericCell(cells[i])) ==> Valid(r)
  {
    Frame(AddCol(f.cols, c),
          if isNum then f.numeric + {c} else f.numeric - {c},
          seq(|f.rows|, i requires 0 <= i < |f.rows| => f.rows[i][c := cells[i]]))
  }

  /** The first of `names` that is not a column, if any. */
  function FirstAbsent(names: seq<string>, cols: seq<string>): (r: Option<string>)
    ensures r.None? <==> forall n :: n in names ==> n in cols
    ensures r.Some? ==> r.value in names && r.value !in cols
  {
    if names == [] then None
    else if names[0] !in cols then Some(names[0])
    else FirstAbsent(names[1..], cols)
  }

  /**
    * `df[[n1, n2, ...]]`: the listed columns, in the listed order, of every
    * row; a KeyError when one of them is not a column.
    */
  function Select(f: Frame, names: seq<string>): (r: Result<Frame>)
    ensures r.Ok? <==> forall n :: n in names ==> n in f.cols
    ensures r.Err? ==> exists n :: n in names && n !in f.cols && r.error == KeyError(n)
    ensures r.Ok? ==> r.value.cols == names && |r.value.rows| == |f.rows|
    ensures r.Ok? ==> forall i, n :: 0 <= i < |f.rows| && n in names ==>
                        At(r.value.rows[i], n) == At(f.rows[i], n)
    ensures r.Ok? ==> forall i :: 0 <= i < |f.rows| ==> r.value.rows[i].Keys == set n | n in names
    ensures r.Ok? && Valid(f) ==> Valid(r.value)
  {
    match FirstAbsent(names, f.cols)
    case Some(n) => Err(KeyError(n))
    case None =>
      Ok(Frame(names,
               set n | n in names && n in f.numeric,
               seq(|f.rows|, i requires 0 <= i < |f.rows| => map n | n in names :: At(f.rows[i], n))))
  }

  // ---------------------------------------------------------------------------
  // Renaming columns (`df.columns = ...`, `df.rename(columns=...)`)
  // ---------------------------------------------------------------------------

  /** The names in first-occurrence order, each once. */
  function Dedup(s: seq<string>): (r: seq<string>)
    ensures forall n :: n in r <==> n in s
    ensures forall i, j :: 0 <= i < j < |r| ==> r[i] != r[j]
  {
    if s == [] then []
    else
      var p := Dedup(s[..|s| - 1]);
      assert forall n :: n in s <==> n in s[..|s| - 1] || n == s[|s| - 1];
      if s[|s| - 1] in p then p else p + [s[|s| - 1]]
  }

  /** A row re-keyed: column `cols[j]` is now called `names[j]`; a later column wins a clash. */
  function RenameRow(r: Row, cols: seq<string>, names: seq<string>): Row
    requires |cols| == |names|
  {
    if cols == [] then map[]
    else RenameRow(r, cols[..|cols| - 1], names[..|names| - 1])[names[|names| - 1] := At(r, cols[|cols| - 1])]
  }

  /**
    * Gives column `cols[j]` the name `names[j]`. A renamed column stays numeric
    * only when every column that takes its name was numeric.
    */
  function RenameColumns(f: Frame, names: seq<string>): (r: Frame)
    requires |names| == |f.cols|
    ensures |r.rows| == |f.rows|
    ensures forall n :: n in r.cols <==> n in names
    ensures forall i, j :: 0 <= i < j < |r.cols| ==> r.cols[i] != r.cols[j]
  {
    Frame(Dedup(names),
          set n | n in names && forall j :: 0 <= j < |names| && names[j] == n ==> f.cols[j] in f.numeric,
          seq(|f.rows|, i requires 0 <= i < |f.rows| => RenameRow(f.rows[i], f.cols, names)))
  }

  /** `columns.str.strip()`: every header name trimmed. */
  function StrippedNames(cols: seq<string>): (r: seq<string>)
    ensures |r| == |cols| && forall i :: 0 <= i < |cols| ==> r[i] == Strip(cols[i])
  {
    seq(|cols|, i requires 0 <= i < |cols| => Strip(cols[i]))
  }

  /** `df.columns = df.columns.str.strip()`. */
  function StripColumnNames(f: Frame): (r: Frame)
    ensures |r.rows| == |f.rows|
    ensures forall n :: n in r.cols <==> exists c :: c in f.cols && Strip(c) == n
  {
    var names := StrippedNames(f.cols);
    assert forall n :: n in names <==> exists c :: c in f.cols && Strip(c) == n by {
      forall n | n in names ensures exists c :: c in f.cols && Strip(c) == n {
        var i :| 0 <= i < |names| && names[i] == n;
        assert f.cols[i] in f.cols;
      }
    }
    RenameColumns(f, names)
  }

  /** The index of the last `n` in `names`, or -1. */
  function LastIndexOf(names: seq<string>, n: string): (r: int)
    ensures -1 <= r < |names|
    ensures r >= 0 ==> names[r] == n && forall k :: r < k < |names| ==> names[k] != n
    ensures r < 0 <==> n !in names
  {
    if names == [] then -1
    else if names[|names| - 1] == n then |names| - 1
    else
      assert forall x :: x in names <==> x in names[..|names| - 1] || x == names[|names| - 1];
      LastIndexOf(names[..|names| - 1], n)
  }

  /** The cell a renamed row holds under `n` is the one from the last column renamed to `n`. */
  lemma {:induction false} RenameRowAt(r: Row, cols: seq<string>, names: seq<string>, n: string)
    requires |cols| == |names|
    ensures var j := LastIndexOf(names, n);
            At(RenameRow(r, cols, names), n) == if j < 0 then Missing else At(r, cols[j])
    decreases |cols|
  {
    if cols != [] {
      var m := |cols| - 1;
      RenameRowAt(r, cols[..m], names[..m], n);
    }
  }

  /** Renaming keeps the dtype flags truthful. */
  lemma RenameColumnsValid(f: Frame, names: seq<string>)
    requires |names| == |f.cols| && Valid(f)
    ensures Valid(RenameColumns(f, names))
  {
    var r := RenameColumns(f, names);
    forall i, n | 0 <= i < |r.rows| && n in r.numeric
      ensures IsNumericCell(At(r.rows[i], n))
    {
      RenameRowAt(f.rows[i], f.cols, names, n);
    }
  }

  // ---------------------------------------------------------------------------
  // Numbers in cells
  // ---------------------------------------------------------------------------

  /** `pd.to_numeric(..., errors="coerce")` on one cell. */
  function ToNumericCell(c: Cell): (r: Cell)
    ensures IsNumericCell(r)
    ensures IsNumericCell(c) ==> r == c
  {
    match c
    case Num(x) => Num(x)
    case Missing => Missing
    case Str(s) => match ParseNumber(s) case Some(v) => Num(v) case None => Missing
  }

  /**
    * `a / b` on two numeric cells; missing when either is missing or the
    * denominator is zero (an undefined ratio).
    */
  function RatioCell(a: Cell, b: Cell): (r: Cell)
    ensures r.Num? <==> a.Num? && b.Num? && b.x != 0.0
    ensures r.Num? ==> r.x * b.x == a.x
    ensures IsNumericCell(r)
  {
    if a.Num? && b.Num? && b.x != 0.0 then Num(a.x / b.x) else Missing
  }

  /** `a - b` on two numeric cells; missing when either is missing. */
  function DiffCell(a: Cell, b: Cell): (r: Cell)
    ensures r.Num? <==> a.Num? && b.Num?
    ensures r.Num? ==> r.x + b.x == a.x
    ensures IsNumericCell(r)
  {
    if a.Num? && b.Num? then Num(a.x - b.x) else Missing
  }

  /** A cell's contribution to a pandas column sum, which skips NaN. */
  function CellAmount(c: Cell): real {
    if c.Num? then c.x else 0.0
  }

  /** `df[c].sum()` over some rows (NaN skipped, so an all-NaN column sums to 0). */
  function SumCol(rows: seq<Row>, c: string): real {
    if rows == [] then 0.0 else CellAmount(At(rows[0], c)) + SumCol(rows[1..], c)
  }

  lemma {:induction false} SumColAppend(a: seq<Row>, b: seq<Row>, c: string)
    ensures SumCol(a + b, c) == SumCol(a, c) + SumCol(b, c)
    decreases |a|
  {
    if a != [] {
      assert (a + b)[1..] == a[1..] + b;
      SumColAppend(a[1..], b, c);
    } else {
      assert a + b == b;
    }
  }

  /** `astype(str)` on one cell (a number is shown by its integer part; NaN as "nan"). */
  function CellText(c: Cell): string {
    match c
    case Str(s) => s
    case Num(x) => IntToDecimal(Trunc(x))
    case Missing => "nan"
  }

  // ---------------------------------------------------------------------------
  // Joins (`pd.merge` / `DataFrame.merge`)
  // ---------------------------------------------------------------------------

  datatype Side = Left | Right

  /** A column of a join result: its name and the input column it is copied from. */
  datatype Source = Source(name: string, side: Side, col: string)

  /** A name that a pandas suffix cannot produce (it does not end in "_x" or "_y"). */
  predicate Plain(n: string) {
    !(|n| >= 2 && n[|n| - 2] == '_' && (n[|n| - 1] == 'x' || n[|n| - 1] == 'y'))
  }

  /** The left frame's columns; a name both sides carry gets "_x" unless it is the shared key. */
  function LeftSources(cols: seq<string>, other: seq<string>, sharedKey: Option<string>): (r: seq<Source>)
    ensures |r| == |cols|
    ensures forall i :: 0 <= i < |cols| ==>
              (r[i].side == Left && r[i].col == cols[i] &&
               r[i].name == (if cols[i] in other && Some(cols[i]) != sharedKey then cols[i] + "_x" else cols[i]))
  {
    seq(|cols|, i requires 0 <= i < |cols| =>
      Source(if cols[i] in other && Some(cols[i]) != sharedKey then cols[i] + "_x" else cols[i], Left, cols[i]))
  }

  /** The right frame's columns, without the shared key; a name both sides carry gets "_y". */
  function RightSources(cols: seq<string>, other: seq<string>, sharedKey: Option<string>): (r: seq<Source>)
    ensures forall s :: s in r ==>
              (s.side == Right && s.col in cols && Some(s.col) != sharedKey &&
               s.name == (if s.col in other then s.col + "_y" else s.col))
    ensures forall c :: c in cols && Some(c) != sharedKey ==> exists s :: s in r && s.col == c
  {
    if cols == [] then []
    else
      var rest := RightSources(cols[1..], other, sharedKey);
      if Some(cols[0]) == sharedKey then rest
      else [Source(if cols[0] in other then cols[0] + "_y" else cols[0], Right, cols[0])] + rest
  }

  /** The columns of `l.merge(r, left_on=lk, right_on=rk)`: left ones first, then right ones. */
  function MergedSources(l: Frame, r: Frame, lk: string, rk: string): seq<Source> {
    var shared := if lk == rk then Some(lk) else None;
    LeftSources(l.cols, r.cols, shared) + RightSources(r.cols, l.cols, shared)
  }

  function SourceValue(s: Source, g: Row, d: Option<Row>): Cell {
    if s.side == Left then At(g, s.col) else if d.Some? then At(d.value, s.col) else Missing
  }

  /** A joined row: each result column filled from its source row (a right row may be absent). */
  function Fill(srcs: seq<Source>, g: Row, d: Option<Row>): Row {
    if srcs == [] then map[]
    else Fill(srcs[..|srcs| - 1], g, d)[srcs[|srcs| - 1].name := SourceValue(srcs[|srcs| - 1], g, d)]
  }

  /** The last result column called `n` (the one a map-based row keeps). */
  function LastSource(srcs: seq<Source>, n: string): Option<Source> {
    if srcs == [] then None
    else if srcs[|srcs| - 1].name == n then Some(srcs[|srcs| - 1])
    else LastSource(srcs[..|srcs| - 1], n)
  }

  lemma {:induction false} FillAt(srcs: seq<Source>, g: Row, d: Option<Row>, n: string)
    ensures At(Fill(srcs, g, d), n) ==
              match LastSource(srcs, n) case None => Missing case Some(s) => SourceValue(s, g, d)
    decreases |srcs|
  {
    if srcs != [] {
      FillAt(srcs[..|srcs| - 1], g, d, n);
    }
  }

  /** When every result column called `n` comes from the same source, that source is the one used. */
  lemma {:induction false} LastSourceUnique(srcs: seq<Source>, n: string, s: Source)
    requires s in srcs
    requires forall t :: t in srcs && t.name == n ==> t == s
    requires s.name == n
    ensures LastSource(srcs, n) == Some(s)
    decreases |srcs|
  {
    var m := |srcs| - 1;
    if srcs[m] != s {
      assert s in srcs[..m] by {
        assert srcs == srcs[..m] + [srcs[m]];
      }
      LastSourceUnique(srcs[..m], n, s);
    }
  }

  lemma SuffixedNotPlain(c: string, suffix: string)
    requires suffix == "_x" || suffix == "_y"
    ensures !Plain(c + suffix)
  {
    var n := c + suffix;
    assert n[|n| - 2] == suffix[0] && n[|n| - 1] == suffix[1];
  }

  /**
    * A plain-named column only the right frame has keeps its name in the
    * join, and its cells come from the right row.
    */
  lemma {:induction false} RightColumnSource(l: Frame, r: Frame, lk: string, rk: string, v: string)
    requires lk in l.cols && v in r.cols && v !in l.cols && Plain(v)
    ensures LastSource(MergedSources(l, r, lk, rk), v) == Some(Source(v, Right, v))
  {
    var shared := if lk == rk then Some(lk) else None;
    var ls := LeftSources(l.cols, r.cols, shared);
    var rs := RightSources(r.cols, l.cols, shared);
    var srcs := MergedSources(l, r, lk, rk);
    var s :| s in rs && s.col == v;
    forall t | t in srcs && t.name == v ensures t == s {
      if t in ls {
        var i :| 0 <= i < |ls| && ls[i] == t;
        if l.cols[i] in r.cols && Some(l.cols[i]) != shared {
          SuffixedNotPlain(l.cols[i], "_x");
        }
      } else {
        assert t in rs;
        if t.col in l.cols {
          SuffixedNotPlain(t.col, "_y");
        }
      }
    }
    LastSourceUnique(srcs, v, s);
  }

  /**
    * A plain-named left column that the right frame does not carry (or
    * that is the shared key) keeps its name, and its cells come from the
    * left row.
    */
  lemma {:induction false} LeftColumnSource(l: Frame, r: Frame, lk: string, rk: string, c: string)
    requires c in l.cols && Plain(c)
    requires c !in r.cols || (c == lk && c == rk)
    ensures LastSource(MergedSources(l, r, lk, rk), c) == Some(Source(c, Left, c))
  {
    var shared := if lk == rk then Some(lk) else None;
    var ls := LeftSources(l.cols, r.cols, shared);
    var rs := RightSources(r.cols, l.cols, shared);
    var srcs := MergedSources(l, r, lk, rk);
    var i :| 0 <= i < |l.cols| && l.cols[i] == c;
    var s := ls[i];
    assert s == Source(c, Left, c);
    assert s in srcs;
    forall t | t in srcs && t.name == c ensures t == s {
      if t in ls {
        var j :| 0 <= j < |ls| && ls[j] == t;
        if l.cols[j] in r.cols && Some(l.cols[j]) != shared {
          SuffixedNotPlain(l.cols[j], "_x");
        }
      } else {
        assert t in rs;
        if t.col in l.cols {
          SuffixedNotPlain(t.col, "_y");
        }
      }
    }
    LastSourceUnique(srcs, c, s);
  }

  /**
    * A plain-named column both frames carry (other than the shared key)
    * survives the join only as "_x" and "_y" copies: its own name is gone.
    */
  lemma {:induction false} SharedColumnRenamed(l: Frame, r: Frame, lk: string, rk: string, v: string)
    requires v in l.cols && v in r.cols && Plain(v) && !(v == lk && v == rk)
    ensures v !in SourceNames(MergedSources(l, r, lk, rk))
  {
    var shared := if lk == rk then Some(lk) else None;
    var ls := LeftSources(l.cols, r.cols, shared);
    var rs := RightSources(r.cols, l.cols, shared);
    var srcs := MergedSources(l, r, lk, rk);
    forall t | t in srcs ensures t.name != v {
      if t in ls {
        var j :| 0 <= j < |ls| && ls[j] == t;
        if l.cols[j] in r.cols && Some(l.cols[j]) != shared {
          SuffixedNotPlain(l.cols[j], "_x");
        }
      } else {
        assert t in rs;
        if t.col in l.cols {
          SuffixedNotPlain(t.col, "_y");
        }
      }
    }
  }

  /** The rows of `rows` whose column `c` equals `key` (pandas matches NaN keys to NaN keys). */
  function Matches(rows: seq<Row>, c: string, key: Cell): (r: seq<Row>)
    ensures |r| <= |rows|
    ensures forall d :: d in r ==> d in rows && At(d, c) == key
  {
    if rows == [] then []
    else if At(rows[0], c) == key then [rows[0]] + Matches(rows[1..], c, key)
    else Matches(rows[1..], c, key)
  }

  /** The first row whose column `c` equals `key`. */
  function Lookup(rows: seq<Row>, c: string, key: Cell): (r: Option<Row>)
    ensures r.Some? ==> r.value in rows && At(r.value, c) == key
    ensures r.None? ==> forall i :: 0 <= i < |rows| ==> At(rows[i], c) != key
  {
    if rows == [] then None
    else if At(rows[0], c) == key then Some(rows[0])
    else Lookup(rows[1..], c, key)
  }

  /** No two rows share a value in column `c`. */
  predicate UniqueKey(rows: seq<Row>, c: string) {
    forall i, j :: 0 <= i < j < |rows| ==> At(rows[i], c) != At(rows[j], c)
  }

  /**
    * The join of the left rows against `right`, left order first and right
    * order within one left row. `keepUnmatched` is `how="left"` (an unmatched
    * left row is kept once, its right columns missing); otherwise `how="inner"`.
    */
  function JoinRows(lrows: seq<Row>, right: seq<Row>, lk: string, rk: string,
                    srcs: seq<Source>, keepUnmatched: bool): seq<Row>
  {
    if lrows == [] then []
    else
      var g := lrows[0];
      var ms := Matches(right, rk, At(g, lk));
      var here := if ms == [] then (if keepUnmatched then [Fill(srcs, g, None)] else [])
                  else seq(|ms|, j requires 0 <= j < |ms| => Fill(srcs, g, Some(ms[j])));
      here + JoinRows(lrows[1..], right, lk, rk, srcs, keepUnmatched)
  }

  function SourceNames(srcs: seq<Source>): (r: seq<string>)
    ensures |r| == |srcs| && forall i :: 0 <= i < |srcs| ==> r[i] == srcs[i].name
  {
    seq(|srcs|, i requires 0 <= i < |srcs| => srcs[i].name)
  }

  function JoinFrame(l: Frame, r: Frame, lk: string, rk: string, keepUnmatched: bool): Frame {
    var srcs := MergedSources(l, r, lk, rk);
    Frame(SourceNames(srcs),
          set s | s in srcs && s.col in (if s.side == Left then l.numeric else r.numeric) :: s.name,
          JoinRows(l.rows, r.rows, lk, rk, srcs, keepUnmatched))
  }

  /** Exactly one of the two key columns has a numeric dtype, which pandas refuses to merge on. */
  predicate KeyTypesClash(l: Frame, r: Frame, lk: string, rk: string) {
    (lk in l.numeric) != (rk in r.numeric)
  }

  /**
    * `l.merge(r, left_on=lk, right_on=rk, how="left")`: a KeyError when a key
    * column is absent, a ValueError when one key is numeric and the other text.
    */
  function LeftJoin(l: Frame, r: Frame, lk: string, rk: string): (res: Result<Frame>)
    ensures res.Ok? <==> lk in l.cols && rk in r.cols && !KeyTypesClash(l, r, lk, rk)
    ensures res.Err? && lk in l.cols && rk in r.cols ==> res.error == MergeKeyTypes(lk, rk)
    ensures res.Ok? ==> res.value.rows == JoinRows(l.rows, r.rows, lk, rk, MergedSources(l, r, lk, rk), true)
  {
    if lk !in l.cols then Err(KeyError(lk))
    else if rk !in r.cols then Err(KeyError(rk))
    else if KeyTypesClash(l, r, lk, rk) then Err(MergeKeyTypes(lk, rk))
    else Ok(JoinFrame(l, r, lk, rk, true))
  }

  /**
    * `pd.merge(l, r, on=k)` (an inner join): a KeyError when `k` is absent
    * from either side, a ValueError when it is numeric on one side only.
    */
  function InnerJoin(l: Frame, r: Frame, k: string): (res: Result<Frame>)
    ensures res.Ok? <==> k in l.cols && k in r.cols && !KeyTypesClash(l, r, k, k)
    ensures res.Err? && k in l.cols && k in r.cols ==> res.error == MergeKeyTypes(k, k)
    ensures res.Ok? ==> res.value.rows == JoinRows(l.rows, r.rows, k, k, MergedSources(l, r, k, k), false)
  {
    if k !in l.cols then Err(KeyError(k))
    else if k !in r.cols then Err(KeyError(k))
    else if KeyTypesClash(l, r, k, k) then Err(MergeKeyTypes(k, k))
    else Ok(JoinFrame(l, r, k, k, false))
  }

  /** No right row carries left row `g`'s key. */
  predicate Unmatched(g: Row, right: seq<Row>, lk: string, rk: string) {
    forall d :: d in right ==> At(d, rk) != At(g, lk)
  }

  /**
    * The rows a left join gives one left row `g`: one per right row with its
    * key, in right order, or a single row with the right side missing.
    */
  function LeftBlock(g: Row, right: seq<Row>, lk: string, rk: string, srcs: seq<Source>): (r: seq<Row>)
    ensures r != []
    ensures forall o :: o in r ==>
              (o == Fill(srcs, g, None) && Unmatched(g, right, lk, rk)) ||
              (exists d :: d in right && At(d, rk) == At(g, lk) && o == Fill(srcs, g, Some(d)))
  {
    var ms := Matches(right, rk, At(g, lk));
    if ms == [] then
      UnmatchedOfNoMatches(right, rk, At(g, lk));
      [Fill(srcs, g, None)]
    else
      var here := seq(|ms|, j requires 0 <= j < |ms| => Fill(srcs, g, Some(ms[j])));
      assert forall j :: 0 <= j < |ms| ==> ms[j] in right && At(ms[j], rk) == At(g, lk);
      here
  }

  lemma UnmatchedOfNoMatches(rows: seq<Row>, c: string, key: Cell)
    requires Matches(rows, c, key) == []
    ensures forall d :: d in rows ==> At(d, c) != key
  {
    forall d | d in rows ensures At(d, c) != key {
      if At(d, c) == key {
        MatchesContains(rows, c, key, d);
      }
    }
  }

  /** Every right row with `g`'s key gives a row of `g`'s block, and with none the block holds the unmatched row. */
  lemma LeftBlockContents(g: Row, right: seq<Row>, lk: string, rk: string, srcs: seq<Source>)
    ensures forall d :: d in right && At(d, rk) == At(g, lk) ==> Fill(srcs, g, Some(d)) in LeftBlock(g, right, lk, rk, srcs)
    ensures Unmatched(g, right, lk, rk) ==> LeftBlock(g, right, lk, rk, srcs) == [Fill(srcs, g, None)]
  {
    var ms := Matches(right, rk, At(g, lk));
    forall d | d in right && At(d, rk) == At(g, lk)
      ensures Fill(srcs, g, Some(d)) in LeftBlock(g, right, lk, rk, srcs)
    {
      MatchesContains(right, rk, At(g, lk), d);
      var j :| 0 <= j < |ms| && ms[j] == d;
      assert LeftBlock(g, right, lk, rk, srcs)[j] == Fill(srcs, g, Some(d));
    }
    if Unmatched(g, right, lk, rk) {
      NoMatches(right, rk, At(g, lk));
    }
  }

  /** The blocks laid end to end. */
  function Concat(blocks: seq<seq<Row>>): seq<Row> {
    if blocks == [] then [] else blocks[0] + Concat(blocks[1..])
  }

  /** The blocks of a left join, one per left row, in left order. */
  function LeftBlocks(lrows: seq<Row>, right: seq<Row>, lk: string, rk: string, srcs: seq<Source>): (r: seq<seq<Row>>)
    ensures |r| == |lrows|
    ensures forall i :: 0 <= i < |lrows| ==> r[i] == LeftBlock(lrows[i], right, lk, rk, srcs)
  {
    seq(|lrows|, i requires 0 <= i < |lrows| => LeftBlock(lrows[i], right, lk, rk, srcs))
  }

  /** A left join is one non-empty block per left row, laid out in left order. */
  lemma {:induction false} LeftJoinBlocks(lrows: seq<Row>, right: seq<Row>, lk: string, rk: string, srcs: seq<Source>)
    ensures JoinRows(lrows, right, lk, rk, srcs, true) == Concat(LeftBlocks(lrows, right, lk, rk, srcs))
    decreases |lrows|
  {
    if lrows != [] {
      var bs := LeftBlocks(lrows, right, lk, rk, srcs);
      assert bs[1..] == LeftBlocks(lrows[1..], right, lk, rk, srcs);
      LeftJoinBlocks(lrows[1..], right, lk, rk, srcs);
    }
  }

  lemma {:induction false} ConcatHas(blocks: seq<seq<Row>>, i: nat, o: Row)
    requires i < |blocks| && o in blocks[i]
    ensures o in Concat(blocks)
    decreases i
  {
    if i > 0 {
      assert blocks[1..][i - 1] == blocks[i];
      ConcatHas(blocks[1..], i - 1, o);
    }
  }

  lemma {:induction false} ConcatFrom(blocks: seq<seq<Row>>, o: Row) returns (i: nat)
    requires o in Concat(blocks)
    ensures i < |blocks| && o in blocks[i]
    decreases |blocks|
  {
    if o in blocks[0] {
      i := 0;
    } else {
      var k := ConcatFrom(blocks[1..], o);
      i := k + 1;
    }
  }

  lemma {:induction false} ConcatLength(blocks: seq<seq<Row>>)
    requires forall i :: 0 <= i < |blocks| ==> blocks[i] != []
    ensures |Concat(blocks)| >= |blocks|
    decreases |blocks|
  {
    if blocks != [] {
      ConcatLength(blocks[1..]);
    }
  }

  /**
    * A left join keeps every left row: it has at least one row per left row,
    * a left row is joined with every right row carrying its key, and a left
    * row that no right row matches appears once with its right side missing.
    */
  lemma LeftJoinKeepsRows(lrows: seq<Row>, right: seq<Row>, lk: string, rk: string, srcs: seq<Source>)
    ensures var out := JoinRows(lrows, right, lk, rk, srcs, true);
            |out| >= |lrows| &&
            (forall i, d :: 0 <= i < |lrows| && d in right && At(d, rk) == At(lrows[i], lk) ==>
               Fill(srcs, lrows[i], Some(d)) in out) &&
            (forall i :: 0 <= i < |lrows| && Unmatched(lrows[i], right, lk, rk) ==> Fill(srcs, lrows[i], None) in out)
  {
    var bs := LeftBlocks(lrows, right, lk, rk, srcs);
    LeftJoinBlocks(lrows, right, lk, rk, srcs);
    ConcatLength(bs);
    forall i, d | 0 <= i < |lrows| && d in right && At(d, rk) == At(lrows[i], lk)
      ensures Fill(srcs, lrows[i], Some(d)) in Concat(bs)
    {
      LeftBlockContents(lrows[i], right, lk, rk, srcs);
      ConcatHas(bs, i, Fill(srcs, lrows[i], Some(d)));
    }
    forall i | 0 <= i < |lrows| && Unmatched(lrows[i], right, lk, rk)
      ensures Fill(srcs, lrows[i], None) in Concat(bs)
    {
      LeftBlockContents(lrows[i], right, lk, rk, srcs);
      ConcatHas(bs, i, Fill(srcs, lrows[i], None));
    }
  }

  /**
    * Conversely, every row of a left join is a left row joined with a right
    * row carrying its key, or an unmatched left row with its right side missing.
    */
  lemma LeftJoinRowsFrom(lrows: seq<Row>, right: seq<Row>, lk: string, rk: string, srcs: seq<Source>, o: Row)
    requires o in JoinRows(lrows, right, lk, rk, srcs, true)
    ensures exists i :: 0 <= i < |lrows| &&
              ((o == Fill(srcs, lrows[i], None) && Unmatched(lrows[i], right, lk, rk)) ||
               (exists d :: d in right && At(d, rk) == At(lrows[i], lk) && o == Fill(srcs, lrows[i], Some(d))))
  {
    var bs := LeftBlocks(lrows, right, lk, rk, srcs);
    LeftJoinBlocks(lrows, right, lk, rk, srcs);
    var i := ConcatFrom(bs, o);
    assert o in LeftBlock(lrows[i], right, lk, rk, srcs);
  }

  lemma {:induction false} NoMatches(rows: seq<Row>, c: string, key: Cell)
    requires forall i :: 0 <= i < |rows| ==> At(rows[i], c) != key
    ensures Matches(rows, c, key) == []
    decreases |rows|
  {
    if rows != [] {
      NoMatches(rows[1..], c, key);
    }
  }

  /** With unique keys a key matches at most one row: the one `Lookup` finds. */
  lemma {:induction false} UniqueMatches(rows: seq<Row>, c: string, key: Cell)
    requires UniqueKey(rows, c)
    ensures Matches(rows, c, key) == match Lookup(rows, c, key) case None => [] case Some(d) => [d]
    decreases |rows|
  {
    if rows != [] {
      assert UniqueKey(rows[1..], c);
      if At(rows[0], c) == key {
        assert forall i :: 0 <= i < |rows[1..]| ==> At(rows[1..][i], c) != key by {
          forall i | 0 <= i < |rows[1..]| ensures At(rows[1..][i], c) != key {
            assert rows[1..][i] == rows[i + 1];
          }
        }
        NoMatches(rows[1..], c, key);
      } else {
        UniqueMatches(rows[1..], c, key);
      }
    }
  }

  /**
    * With unique right keys a left join has exactly one row per left row:
    * left row `i` filled from the right row with its key, or from none.
    */
  lemma {:induction false} LeftJoinUnique(lrows: seq<Row>, right: seq<Row>, lk: string, rk: string, srcs: seq<Source>)
    requires UniqueKey(right, rk)
    ensures JoinRows(lrows, right, lk, rk, srcs, true) == UniqueJoin(lrows, right, lk, rk, srcs)
    decreases |lrows|
  {
    if lrows != [] {
      UniqueMatches(right, rk, At(lrows[0], lk));
      LeftJoinUnique(lrows[1..], right, lk, rk, srcs);
      UniqueJoinCons(lrows, right, lk, rk, srcs);
    }
  }

  /** One joined row per left row, filled from the right row `Lookup` finds for its key. */
  function UniqueJoin(lrows: seq<Row>, right: seq<Row>, lk: string, rk: string, srcs: seq<Source>): (r: seq<Row>)
    ensures |r| == |lrows|
    ensures forall i :: 0 <= i < |lrows| ==> r[i] == Fill(srcs, lrows[i], Lookup(right, rk, At(lrows[i], lk)))
  {
    seq(|lrows|, i requires 0 <= i < |lrows| => Fill(srcs, lrows[i], Lookup(right, rk, At(lrows[i], lk))))
  }

  lemma UniqueJoinCons(lrows: seq<Row>, right: seq<Row>, lk: string, rk: string, srcs: seq<Source>)
    requires lrows != []
    ensures UniqueJoin(lrows, right, lk, rk, srcs) ==
              [Fill(srcs, lrows[0], Lookup(right, rk, At(lrows[0], lk)))] + UniqueJoin(lrows[1..], right, lk, rk, srcs)
  {
  }

  /** Every row of an inner join pairs a left row and a right row that carry the same key. */
  lemma {:induction false} InnerJoinRowsPaired(lrows: seq<Row>, right: seq<Row>, k: string, srcs: seq<Source>, o: Row)
    requires o in JoinRows(lrows, right, k, k, srcs, false)
    ensures exists g, d :: g in lrows && d in right && At(g, k) == At(d, k) && o == Fill(srcs, g, Some(d))
    decreases |lrows|
  {
    var g := lrows[0];
    var ms := Matches(right, k, At(g, k));
    var here := if ms == [] then [] else seq(|ms|, j requires 0 <= j < |ms| => Fill(srcs, g, Some(ms[j])));
    var rest := JoinRows(lrows[1..], right, k, k, srcs, false);
    assert JoinRows(lrows, right, k, k, srcs, false) == here + rest;
    if o in here {
      var j :| 0 <= j < |ms| && here[j] == o;
      assert ms[j] in ms;
    } else {
      InnerJoinRowsPaired(lrows[1..], right, k, srcs, o);
    }
  }

  /** Every pair of a left row and a right row with the same key yields a row of the inner join. */
  lemma {:induction false} InnerJoinHasPair(lrows: seq<Row>, right: seq<Row>, k: string, srcs: seq<Source>, i: nat, d: Row)
    requires i < |lrows| && d in right && At(d, k) == At(lrows[i], k)
    ensures Fill(srcs, lrows[i], Some(d)) in JoinRows(lrows, right, k, k, srcs, false)
    decreases |lrows|
  {
    var g := lrows[0];
    var rest := JoinRows(lrows[1..], right, k, k, srcs, false);
    if i == 0 {
      MatchesContains(right, k, At(g, k), d);
      var ms := Matches(right, k, At(g, k));
      var j :| 0 <= j < |ms| && ms[j] == d;
      var here := seq(|ms|, j requires 0 <= j < |ms| => Fill(srcs, g, Some(ms[j])));
      assert JoinRows(lrows, right, k, k, srcs, false) == here + rest;
      assert here[j] == Fill(srcs, g, Some(d));
    } else {
      assert lrows[1..][i - 1] == lrows[i];
      InnerJoinHasPair(lrows[1..], right, k, srcs, i - 1, d);
    }
  }

  lemma {:induction false} MatchesContains(rows: seq<Row>, c: string, key: Cell, d: Row)
    requires d in rows && At(d, c) == key
    ensures d in Matches(rows, c, key)
    decreases |rows|
  {
    if rows[0] != d {
      MatchesContains(rows[1..], c, key, d);
    }
  }

  // ---------------------------------------------------------------------------
  // The inner join, one row per pair of rows with equal keys
  // ---------------------------------------------------------------------------

  /** The positions from `from` on of the rows of `right` whose column `rk` equals `key`, ascending. */
  function MatchIndices(right: seq<Row>, rk: string, key: Cell, from: nat): (js: seq<nat>)
    ensures forall t :: 0 <= t < |js| ==> from <= js[t] < |right| && At(right[js[t]], rk) == key
    ensures forall s, t :: 0 <= s < t < |js| ==> js[s] < js[t]
    ensures forall j :: from <= j < |right| && At(right[j], rk) == key ==> j in js
    decreases |right| - from
  {
    if from >= |right| then []
    else (if At(right[from], rk) == key then [from] else []) + MatchIndices(right, rk, key, from + 1)
  }

  /** Pair `a` comes before pair `b` in left-then-right order. */
  predicate PairBefore(a: (nat, nat), b: (nat, nat)) {
    a.0 < b.0 || (a.0 == b.0 && a.1 < b.1)
  }

  /** Left row `i` paired with each right position in `js`. */
  function RowPairs(i: nat, js: seq<nat>): (ps: seq<(nat, nat)>)
    ensures |ps| == |js| && forall t :: 0 <= t < |js| ==> ps[t] == (i, js[t])
  {
    seq(|js|, t requires 0 <= t < |js| => (i, js[t]))
  }

  /**
    * The pairs (i, j) of a left row `i` from `from` on and a right row `j`
    * with equal keys: every such pair exactly once, in left order and then
    * right order.
    */
  function KeyPairs(lrows: seq<Row>, right: seq<Row>, lk: string, rk: string, from: nat): (ps: seq<(nat, nat)>)
    ensures forall t :: 0 <= t < |ps| ==>
              from <= ps[t].0 < |lrows| && ps[t].1 < |right| && At(lrows[ps[t].0], lk) == At(right[ps[t].1], rk)
    ensures forall i, j :: from <= i < |lrows| && 0 <= j < |right| && At(lrows[i], lk) == At(right[j], rk) ==> (i, j) in ps
    ensures forall s, t :: 0 <= s < t < |ps| ==> PairBefore(ps[s], ps[t])
    decreases |lrows| - from
  {
    if from >= |lrows| then []
    else
      var js := MatchIndices(right, rk, At(lrows[from], lk), 0);
      var here := RowPairs(from, js);
      var rest := KeyPairs(lrows, right, lk, rk, from + 1);
      KeyPairsCons(lrows, right, lk, rk, from, here, rest);
      here + rest
  }

  /** The step of `KeyPairs`: row `from`'s pairs, then those of the later rows. */
  lemma KeyPairsCons(lrows: seq<Row>, right: seq<Row>, lk: string, rk: string, from: nat,
                     here: seq<(nat, nat)>, rest: seq<(nat, nat)>)
    requires from < |lrows|
    requires here == RowPairs(from, MatchIndices(right, rk, At(lrows[from], lk), 0))
    requires forall t :: 0 <= t < |rest| ==>
               from + 1 <= rest[t].0 < |lrows| && rest[t].1 < |right| && At(lrows[rest[t].0], lk) == At(right[rest[t].1], rk)
    requires forall i, j :: from + 1 <= i < |lrows| && 0 <= j < |right| && At(lrows[i], lk) == At(right[j], rk) ==> (i, j) in rest
    requires forall s, t :: 0 <= s < t < |rest| ==> PairBefore(rest[s], rest[t])
    ensures var ps := here + rest;
            (forall t :: 0 <= t < |ps| ==>
               from <= ps[t].0 < |lrows| && ps[t].1 < |right| && At(lrows[ps[t].0], lk) == At(right[ps[t].1], rk)) &&
            (forall i, j :: from <= i < |lrows| && 0 <= j < |right| && At(lrows[i], lk) == At(right[j], rk) ==> (i, j) in ps) &&
            (forall s, t :: 0 <= s < t < |ps| ==> PairBefore(ps[s], ps[t]))
  {
    var js := MatchIndices(right, rk, At(lrows[from], lk), 0);
    ConsValid(lrows, right, lk, rk, from, js, rest);
    ConsComplete(lrows, right, lk, rk, from, js, rest);
    ConsOrdered(from, js, rest);
  }

  lemma ConsValid(lrows: seq<Row>, right: seq<Row>, lk: string, rk: string, from: nat, js: seq<nat>, rest: seq<(nat, nat)>)
    requires from < |lrows|
    requires forall t :: 0 <= t < |js| ==> js[t] < |right| && At(right[js[t]], rk) == At(lrows[from], lk)
    requires forall t :: 0 <= t < |rest| ==>
               from + 1 <= rest[t].0 < |lrows| && rest[t].1 < |right| && At(lrows[rest[t].0], lk) == At(right[rest[t].1], rk)
    ensures var ps := RowPairs(from, js) + rest;
            forall t :: 0 <= t < |ps| ==>
              from <= ps[t].0 < |lrows| && ps[t].1 < |right| && At(lrows[ps[t].0], lk) == At(right[ps[t].1], rk)
  {
    var here := RowPairs(from, js);
    var ps := here + rest;
    forall t | 0 <= t < |ps|
      ensures from <= ps[t].0 < |lrows| && ps[t].1 < |right| && At(lrows[ps[t].0], lk) == At(right[ps[t].1], rk)
    {
      if t < |here| {
        assert ps[t] == (from, js[t]);
      } else {
        assert ps[t] == rest[t - |here|];
      }
    }
  }

  lemma ConsComplete(lrows: seq<Row>, right: seq<Row>, lk: string, rk: string, from: nat, js: seq<nat>, rest: seq<(nat, nat)>)
    requires from < |lrows|
    requires forall j :: 0 <= j < |right| && At(right[j], rk) == At(lrows[from], lk) ==> j in js
    requires forall i, j :: from + 1 <= i < |lrows| && 0 <= j < |right| && At(lrows[i], lk) == At(right[j], rk) ==> (i, j) in rest
    ensures var ps := RowPairs(from, js) + rest;
            forall i, j :: from <= i < |lrows| && 0 <= j < |right| && At(lrows[i], lk) == At(right[j], rk) ==> (i, j) in ps
  {
    var here := RowPairs(from, js);
    var ps := here + rest;
    forall i, j | from <= i < |lrows| && 0 <= j < |right| && At(lrows[i], lk) == At(right[j], rk)
      ensures (i, j) in ps
    {
      if i == from {
        var t :| 0 <= t < |js| && js[t] == j;
        assert ps[t] == (i, j);
      } else {
        var t :| 0 <= t < |rest| && rest[t] == (i, j);
        assert ps[|here| + t] == (i, j);
      }
    }
  }

  lemma ConsOrdered(from: nat, js: seq<nat>, rest: seq<(nat, nat)>)
    requires forall s, t :: 0 <= s < t < |js| ==> js[s] < js[t]
    requires forall t :: 0 <= t < |rest| ==> from + 1 <= rest[t].0
    requires forall s, t :: 0 <= s < t < |rest| ==> PairBefore(rest[s], rest[t])
    ensures var ps := RowPairs(from, js) + rest;
            forall s, t :: 0 <= s < t < |ps| ==> PairBefore(ps[s], ps[t])
  {
    var here := RowPairs(from, js);
    var ps := here + rest;
    forall s, t | 0 <= s < t < |ps|
      ensures PairBefore(ps[s], ps[t])
    {
      if t < |here| {
        assert ps[s] == (from, js[s]) && ps[t] == (from, js[t]);
      } else if s < |here| {
        assert ps[s].0 == from && ps[t] == rest[t - |here|];
      } else {
        assert ps[s] == rest[s - |here|] && ps[t] == rest[t - |here|];
      }
    }
  }

  /** Each pair joined into one row, in the order of `ps`. */
  function PairRows(lrows: seq<Row>, right: seq<Row>, srcs: seq<Source>, ps: seq<(nat, nat)>): (r: seq<Row>)
    requires forall t :: 0 <= t < |ps| ==> ps[t].0 < |lrows| && ps[t].1 < |right|
    ensures |r| == |ps|
    ensures forall t :: 0 <= t < |ps| ==> r[t] == Fill(srcs, lrows[ps[t].0], Some(right[ps[t].1]))
  {
    seq(|ps|, t requires 0 <= t < |ps| => Fill(srcs, lrows[ps[t].0], Some(right[ps[t].1])))
  }

  /** The rows `Matches` picks are the rows at `MatchIndices`, in the same order. */
  lemma {:induction false} MatchesAtIndices(right: seq<Row>, rk: string, key: Cell, from: nat)
    requires from <= |right|
    ensures var js := MatchIndices(right, rk, key, from);
            var ms := Matches(right[from..], rk, key);
            |ms| == |js| && forall t :: 0 <= t < |js| ==> ms[t] == right[js[t]]
    decreases |right| - from
  {
    if from < |right| {
      MatchesAtIndices(right, rk, key, from + 1);
      MatchesStep(right, rk, key, from);
      if At(right[from], rk) == key {
        RowsAtCons(right, from, MatchIndices(right, rk, key, from + 1), Matches(right[from + 1..], rk, key));
      }
    }
  }

  /** Picking row `from` first keeps a run of rows the rows at its indices. */
  lemma RowsAtCons(right: seq<Row>, from: nat, js: seq<nat>, ms: seq<Row>)
    requires from < |right| && |ms| == |js|
    requires forall t :: 0 <= t < |js| ==> js[t] < |right| && ms[t] == right[js[t]]
    ensures var js', ms' := [from] + js, [right[from]] + ms;
            |ms'| == |js'| && forall t :: 0 <= t < |js'| ==> ms'[t] == right[js'[t]]
  {
    var js', ms' := [from] + js, [right[from]] + ms;
    forall t | 0 <= t < |js'|
      ensures ms'[t] == right[js'[t]]
    {
      if t > 0 {
        assert ms'[t] == ms[t - 1] && js'[t] == js[t - 1];
      }
    }
  }

  /** One step of `Matches` on the rows from `from` on. */
  lemma MatchesStep(right: seq<Row>, rk: string, key: Cell, from: nat)
    requires from < |right|
    ensures Matches(right[from..], rk, key)
            == (if At(right[from], rk) == key then [right[from]] else []) + Matches(right[from + 1..], rk, key)
  {
    var rows := right[from..];
    assert rows[0] == right[from] && rows[1..] == right[from + 1..];
  }

  /**
    * An inner join has exactly one row per pair of rows with equal keys, in
    * the order `KeyPairs` lists them: left row `i` joined with right row `j`.
    */
  lemma InnerJoinPairs(lrows: seq<Row>, right: seq<Row>, lk: string, rk: string, srcs: seq<Source>)
    ensures JoinRows(lrows, right, lk, rk, srcs, false) == PairRows(lrows, right, srcs, KeyPairs(lrows, right, lk, rk, 0))
  {
    InnerJoinPairsFrom(lrows, right, lk, rk, srcs, 0);
    assert lrows[0..] == lrows;
  }

  lemma {:induction false} InnerJoinPairsFrom(lrows: seq<Row>, right: seq<Row>, lk: string, rk: string, srcs: seq<Source>, from: nat)
    requires from <= |lrows|
    ensures JoinRows(lrows[from..], right, lk, rk, srcs, false) == PairRows(lrows, right, srcs, KeyPairs(lrows, right, lk, rk, from))
    decreases |lrows| - from
  {
    if from < |lrows| {
      var g := lrows[from];
      assert lrows[from..][0] == g && lrows[from..][1..] == lrows[from + 1..];
      InnerJoinPairsFrom(lrows, right, lk, rk, srcs, from + 1);
      var here := RowPairs(from, MatchIndices(right, rk, At(g, lk), 0));
      var rest := KeyPairs(lrows, right, lk, rk, from + 1);
      assert KeyPairs(lrows, right, lk, rk, from) == here + rest;
      InnerBlockRows(lrows, right, lk, rk, srcs, from);
      PairRowsAppend(lrows, right, srcs, here, rest);
    }
  }

  /** Left row `from`'s share of an inner join: its row joined with each right row carrying its key. */
  lemma InnerBlockRows(lrows: seq<Row>, right: seq<Row>, lk: string, rk: string, srcs: seq<Source>, from: nat)
    requires from < |lrows|
    ensures var g := lrows[from];
            var ms := Matches(right, rk, At(g, lk));
            var here := if ms == [] then [] else seq(|ms|, j requires 0 <= j < |ms| => Fill(srcs, g, Some(ms[j])));
            here == PairRows(lrows, right, srcs, RowPairs(from, MatchIndices(right, rk, At(g, lk), 0)))
  {
    var g := lrows[from];
    MatchesAtIndices(right, rk, At(g, lk), 0);
    assert right[0..] == right;
  }

  lemma PairRowsAppend(lrows: seq<Row>, right: seq<Row>, srcs: seq<Source>, a: seq<(nat, nat)>, b: seq<(nat, nat)>)
    requires forall t :: 0 <= t < |a| ==> a[t].0 < |lrows| && a[t].1 < |right|
    requires forall t :: 0 <= t < |b| ==> b[t].0 < |lrows| && b[t].1 < |right|
    ensures forall t :: 0 <= t < |a + b| ==> (a + b)[t].0 < |lrows| && (a + b)[t].1 < |right|
    ensures PairRows(lrows, right, srcs, a + b) == PairRows(lrows, right, srcs, a) + PairRows(lrows, right, srcs, b)
  {
    assert forall t :: 0 <= t < |a + b| ==> (a + b)[t] == if t < |a| then a[t] else b[t - |a|];
  }

  /** Two tables whose key cells agree position by position give the same pairs. */
  lemma {:induction false} KeyPairsSameKeys(l1: seq<Row>, r1: seq<Row>, l2: seq<Row>, r2: seq<Row>, lk: string, rk: string, from: nat)
    requires |l1| == |l2| && |r1| == |r2|
    requires forall i :: 0 <= i < |l1| ==> At(l1[i], lk) == At(l2[i], lk)
    requires forall j :: 0 <= j < |r1| ==> At(r1[j], rk) == At(r2[j], rk)
    ensures KeyPairs(l1, r1, lk, rk, from) == KeyPairs(l2, r2, lk, rk, from)
    decreases |l1| - from
  {
    if from < |l1| {
      MatchIndicesSameKeys(r1, r2, rk, At(l1[from], lk), 0);
      KeyPairsSameKeys(l1, r1, l2, r2, lk, rk, from + 1);
    }
  }

  lemma {:induction false} MatchIndicesSameKeys(r1: seq<Row>, r2: seq<Row>, rk: string, key: Cell, from: nat)
    requires |r1| == |r2|
    requires forall j :: 0 <= j < |r1| ==> At(r1[j], rk) == At(r2[j], rk)
    ensures MatchIndices(r1, rk, key, from) == MatchIndices(r2, rk, key, from)
    decreases |r1| - from
  {
    if from < |r1| {
      MatchIndicesSameKeys(r1, r2, rk, key, from + 1);
    }
  }

  /** The value a left join gives boundary row `g` in right column `v`. */
  function JoinedCell(g: Row, right: seq<Row>, lk: string, rk: string, v: string): Cell {
    match Lookup(right, rk, At(g, lk))
    case None => Missing
    case Some(d) => At(d, v)
  }

  /**
    * A left join on unique right keys: one row per left row, in left order;
    * a right column `v` the left frame lacks is present and holds the value
    * of the right row with the same key, or is missing when none has it;
    * and a plain left column the right frame lacks is copied unchanged.
    */
  lemma LeftJoinValues(l: Frame, r: Frame, lk: string, rk: string, v: string)
    requires lk in l.cols && rk in r.cols && !KeyTypesClash(l, r, lk, rk) && UniqueKey(r.rows, rk)
    requires v in r.cols && v !in l.cols && Plain(v)
    ensures LeftJoin(l, r, lk, rk).Ok?
    ensures var m := LeftJoin(l, r, lk, rk).value;
            v in m.cols && |m.rows| == |l.rows| &&
            (forall i :: 0 <= i < |l.rows| ==> At(m.rows[i], v) == JoinedCell(l.rows[i], r.rows, lk, rk, v)) &&
            (forall i, c :: 0 <= i < |l.rows| && c in l.cols && c !in r.cols && Plain(c) ==>
               At(m.rows[i], c) == At(l.rows[i], c))
  {
    var srcs := MergedSources(l, r, lk, rk);
    var m := LeftJoin(l, r, lk, rk).value;
    LeftJoinUnique(l.rows, r.rows, lk, rk, srcs);
    RightColumnSource(l, r, lk, rk, v);
    forall i | 0 <= i < |l.rows|
      ensures At(m.rows[i], v) == JoinedCell(l.rows[i], r.rows, lk, rk, v)
    {
      FillAt(srcs, l.rows[i], Lookup(r.rows, rk, At(l.rows[i], lk)), v);
    }
    forall i, c | 0 <= i < |l.rows| && c in l.cols && c !in r.cols && Plain(c)
      ensures At(m.rows[i], c) == At(l.rows[i], c)
    {
      LeftColumnSource(l, r, lk, rk, c);
      FillAt(srcs, l.rows[i], Lookup(r.rows, rk, At(l.rows[i], lk)), c);
    }
    var k :| 0 <= k < |srcs| && srcs[k] == Source(v, Right, v) by {
      LastSourceFound(srcs, v);
    }
    assert SourceNames(srcs)[k] == v;
  }

  lemma {:induction false} LastSourceFound(srcs: seq<Source>, n: string)
    requires LastSource(srcs, n).Some?
    ensures LastSource(srcs, n).value in srcs
    decreases |srcs|
  {
    if srcs[|srcs| - 1].name != n {
      LastSourceFound(srcs[..|srcs| - 1], n);
    }
  }

  // ---------------------------------------------------------------------------
  // A frame updated in place
  // ---------------------------------------------------------------------------

  /** A pandas DataFrame object: its columns, dtypes and rows change under assignment. */
  class DataFrame {
    var cols: seq<string>
    var numeric: set<string>
    var rows: seq<Row>

    function Value(): Frame
      reads this
    {
      Frame(cols, numeric, rows)
    }

    /** `pd.DataFrame(...)` / a table read from disk. */
    constructor (f: Frame)
      ensures Value() == f
    {
      cols, numeric, rows := f.cols, f.numeric, f.rows;
    }

    /** `df.copy()`. */
    method Copy() returns (c: DataFrame)
      ensures fresh(c) && c.Value() == Value()
    {
      c := new DataFrame(Value());
    }

    /** `df[name] = cells`. */
    method Assign(name: string, cells: seq<Cell>, isNum: bool)
      requires |cells| == |rows|
      modifies this
      ensures Value() == WithColumn(old(Value()), name, cells, isNum)
    {
      var f := WithColumn(Value(), name, cells, isNum);
      cols, numeric, rows := f.cols, f.numeric, f.rows;
    }

    /** `df.columns = names`. */
    method SetColumnNames(names: seq<string>)
      requires |names| == |cols|
      modifies this
      ensures Value() == RenameColumns(old(Value()), names)
    {
      var f := RenameColumns(Value(), names);
      cols, numeric, rows := f.cols, f.numeric, f.rows;
    }

    /** `df[[n1, n2, ...]]`: a new frame. */
    method Pick(names: seq<string>) returns (r: Result<DataFrame>)
      ensures Agrees(r, Select(Value(), names))
      ensures r.Ok? ==> fresh(r.value)
    {
      var s := Select(Value(), names);
      if s.Ok? {
        var d := new DataFrame(s.value);
        r := Ok(d);
      } else {
        r := Err(s.error);
      }
    }
  }

  /** A method's frame result agrees with the frame value its specification gives. */
  ghost predicate Agrees(r: Result<DataFrame>, s: Result<Frame>)
    reads if r.Ok? then {r.value} else {}
  {
    match r
    case Ok(d) => s == Ok(d.Value())
    case Err(e) => s == Err(e)
  }
}
