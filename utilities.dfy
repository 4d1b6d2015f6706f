/**
  * The shared helpers of the plotter: the boundary-code preprocessor for
  * municipalities (gminy), municipality-table normalisation (TERYT code
  * canonicalisation, the Warsaw consolidation, output column selection),
  * the share variant of it, and the lenient number parser `to_num`.
  */
module Utilities {
  import opened Wrappers
  import opened Text
  import opened Frames

  const BoundaryCodeColumn := "JPT_KOD_JE"
  const GminaColumn := "Gmina"
  const PowiatColumn := "Powiat"
  const WojewodztwoColumn := "Województwo"
  const GminaCodeColumn := "TERYT Gminy"

  /** The code of the consolidated City of Warsaw row. */
  const WarsawCode := "146501"
  /** The text a missing nullable integer renders as. */
  const NAText := "<NA>"
  /** The default `teryt_len`. */
  const CodeWidth: nat := 6

  // ---------------------------------------------------------------------------
  // Boundary codes (preprocess_gminy_geo)
  // ---------------------------------------------------------------------------

  /** One boundary code as text, padded with '0' to 7 characters, cut to its first 6. */
  function GminaGeoKey(c: Cell): (r: Cell)
    ensures r.Str? && |r.s| == 6
  {
    Str(Take(ZFill(CellText(c), 7), 6))
  }

  /**
    * The boundary table after `preprocess_gminy_geo`: a KeyError without a
    * `JPT_KOD_JE` column; otherwise every key is a 6-character text and
    * nothing else changes.
    */
  function PreprocessGminyGeoSpec(gdf: Frame): (r: Result<Frame>)
    ensures r.Ok? <==> BoundaryCodeColumn in gdf.cols
    ensures r.Err? ==> r.error == KeyError(BoundaryCodeColumn)
    ensures r.Ok? ==> r.value.cols == gdf.cols && |r.value.rows| == |gdf.rows|
    ensures r.Ok? ==> forall i :: 0 <= i < |gdf.rows| ==>
                        At(r.value.rows[i], BoundaryCodeColumn).Str? && |At(r.value.rows[i], BoundaryCodeColumn).s| == 6
    ensures r.Ok? ==> forall i, c :: 0 <= i < |gdf.rows| && c != BoundaryCodeColumn ==>
                        At(r.value.rows[i], c) == At(gdf.rows[i], c)
  {
    if BoundaryCodeColumn !in gdf.cols then Err(KeyError(BoundaryCodeColumn))
    else Ok(WithColumn(gdf, BoundaryCodeColumn, Apply(gdf, BoundaryCodeColumn, GminaGeoKey), false))
  }

  /** `preprocess_gminy_geo(gdf)`: rewrites the key column of `gdf` in place and returns `gdf`. */
  method PreprocessGminyGeo(gdf: DataFrame) returns (r: Result<DataFrame>)
    modifies gdf
    ensures Agrees(r, PreprocessGminyGeoSpec(old(gdf.Value())))
    ensures r.Ok? ==> r.value == gdf
    ensures r.Err? ==> gdf.Value() == old(gdf.Value())
  {
    if BoundaryCodeColumn !in gdf.cols {
      return Err(KeyError(BoundaryCodeColumn));
    }
    gdf.Assign(BoundaryCodeColumn, Apply(gdf.Value(), BoundaryCodeColumn, GminaGeoKey), false);
    return Ok(gdf);
  }

  /** A 7-digit boundary code loses its last digit (the unit-type digit). */
  lemma GeoKeyDropsLastDigit(s: string)
    requires IsDigits(s) && |s| == 7
    ensures GminaGeoKey(Str(s)) == Str(s[..6])
  {
  }

  /**
    * A boundary code held as a number `n < 10^7` becomes `n / 10` padded to
    * six digits.
    */
  lemma GeoKeyOfNumber(n: nat)
    requires n < Pow10(7)
    ensures GminaGeoKey(Num(n as real)) == Str(ZFill(NatToDecimal(n / 10), 6))
  {
    assert Trunc(n as real) == n;
    DropLastDigit(n, 7);
  }

  // ---------------------------------------------------------------------------
  // Code normalisation (the two passes of normalize_gminy_data)
  // ---------------------------------------------------------------------------

  /**
    * The first pass on one code: a code that parses as a number becomes its
    * integer part in decimal, left-padded with '0' to `width` (never cut);
    * one that does not parse becomes missing, and its row stays.
    */
  function FirstPassCode(c: Cell, width: nat): (r: Cell)
    ensures r.Missing? <==> !ToNumericCell(c).Num?
    ensures r.Str? ==> |r.s| >= width && ParseNumber(r.s) == Some(Trunc(ToNumericCell(c).x) as real)
  {
    match ToNumericCell(c)
    case Num(x) =>
      ParseRendered(Trunc(x), width);
      Str(ZFill(IntToDecimal(Trunc(x)), width))
    case _ => Missing
  }

  /**
    * The second pass on one code (nullable-integer cast, then text, then
    * padding): a number becomes its padded decimal text, a missing or
    * unparseable code becomes "<NA>" padded, and a fractional number cannot
    * be cast (TypeError).
    */
  function SecondPassCode(c: Cell, col: string, width: nat): (r: Result<Cell>)
    ensures r.Err? <==> ToNumericCell(c).Num? && !IsIntegral(ToNumericCell(c).x)
    ensures r.Err? ==> r.error == NonIntegralCode(col)
    ensures r.Ok? ==> r.value.Str? && |r.value.s| >= width
  {
    match ToNumericCell(c)
    case Num(x) =>
      if IsIntegral(x) then Ok(Str(ZFill(IntToDecimal(x.Floor), width))) else Err(NonIntegralCode(col))
    case _ => Ok(Str(ZFill(NAText, width)))
  }

  /** The second pass over a whole column: the first failing cell decides the error. */
  function SecondPassCells(cells: seq<Cell>, col: string, width: nat): (r: Result<seq<Cell>>)
    ensures r.Ok? <==> forall i :: 0 <= i < |cells| ==> SecondPassCode(cells[i], col, width).Ok?
    ensures r.Ok? ==> |r.value| == |cells| &&
                      forall i :: 0 <= i < |cells| ==> SecondPassCode(cells[i], col, width) == Ok(r.value[i])
    ensures r.Err? ==> r.error == NonIntegralCode(col)
  {
    if cells == [] then Ok([])
    else
      match SecondPassCode(cells[0], col, width)
      case Err(e) => Err(e)
      case Ok(c) =>
        match SecondPassCells(cells[1..], col, width)
        case Err(e) => Err(e)
        case Ok(rest) =>
          assert forall i :: 1 <= i < |cells| ==> cells[i] == cells[1..][i - 1];
          Ok([c] + rest)
  }

  /**
    * The code a row carries after both passes: the first-pass code, or
    * "<NA>" padded where the first pass left it missing.
    */
  function SettledCode(c: Cell, width: nat): (r: Cell)
    ensures r.Str? && |r.s| >= width
  {
    var f := FirstPassCode(c, width);
    if f.Missing? then Str(ZFill(NAText, width)) else f
  }

  /**
    * A code the first pass produced goes through the second pass unchanged;
    * a missing one becomes "<NA>" padded. In particular the second pass never
    * raises on first-pass output.
    */
  lemma SecondPassSettles(c: Cell, col: string, width: nat)
    ensures SecondPassCode(FirstPassCode(c, width), col, width) == Ok(SettledCode(c, width))
  {
    var f := FirstPassCode(c, width);
    if f.Str? {
      var i := Trunc(ToNumericCell(c).x);
      ParseRendered(i, width);
      assert ToNumericCell(f) == Num(i as real);
      assert (i as real).Floor == i;
    }
  }

  /** A canonical digit string goes through the second pass as itself, padded. */
  lemma DigitCodeSettles(s: string, col: string, width: nat)
    requires IsDigits(s) && s != [] && (|s| == 1 || s[0] != '0')
    ensures SecondPassCode(Str(s), col, width) == Ok(Str(ZFill(s, width)))
  {
    ParseDigits(s);
    CanonicalDecimal(s);
    var n := DigitsValue(s);
    assert ToNumericCell(Str(s)) == Num(n as real);
    assert (n as real).Floor == n;
    assert IntToDecimal(n) == s;
  }

  /** The consolidated Warsaw code goes through the second pass as itself, padded; at width 6 it is unchanged. */
  lemma WarsawCodeSettles(col: string, width: nat)
    ensures SecondPassCode(Str(WarsawCode), col, width) == Ok(Str(ZFill(WarsawCode, width)))
    ensures width <= CodeWidth ==> ZFill(WarsawCode, width) == WarsawCode
  {
    assert IsDigits(WarsawCode) && |WarsawCode| == CodeWidth && WarsawCode[0] != '0';
    DigitCodeSettles(WarsawCode, col, width);
  }

  /** Normalising an already normalised 6-digit code gives it back unchanged. */
  lemma SettledCodeIdempotent(s: string)
    requires IsDigits(s) && |s| == CodeWidth
    ensures SettledCode(Str(s), CodeWidth) == Str(s)
  {
    ParseDigits(s);
    assert Trunc(DigitsValue(s) as real) == DigitsValue(s);
    ZFillCanonical(s);
  }

  /**
    * ASCII whitespace around a 6-digit code does not reach the first pass's
    * result: `pd.to_numeric` skips it, so `" 020101"` becomes "020101".
    */
  lemma SpacedCodeFirstPass(pre: string, s: string, post: string)
    requires forall i :: 0 <= i < |pre| ==> IsAsciiSpace(pre[i])
    requires forall i :: 0 <= i < |post| ==> IsAsciiSpace(post[i])
    requires IsDigits(s) && |s| == CodeWidth
    ensures FirstPassCode(Str(pre + s + post), CodeWidth) == Str(s)
  {
    ParsePadded(pre, s, post);
    ParseDigits(s);
    assert Trunc(DigitsValue(s) as real) == DigitsValue(s);
    ZFillCanonical(s);
  }

  /** Two first-pass codes of natural numbers are equal exactly when the numbers are: padding loses nothing. */
  lemma FirstPassInjective(a: nat, b: nat, width: nat)
    ensures FirstPassCode(Num(a as real), width) == FirstPassCode(Num(b as real), width) <==> a == b
  {
    assert Trunc(a as real) == a && Trunc(b as real) == b;
    PaddedDigits(a, width);
    PaddedDigits(b, width);
  }

  /**
    * A municipality boundary code `n` (7 digits with the unit-type digit)
    * meets the normalised data code of `m` exactly when `m` is `n` without
    * its last digit.
    */
  lemma GeoKeyMeetsDataCode(n: nat, m: nat)
    requires n < Pow10(7)
    ensures GminaGeoKey(Num(n as real)) == FirstPassCode(Num(m as real), CodeWidth) <==> m == n / 10
  {
    GeoKeyOfNumber(n);
    assert FirstPassCode(Num((n / 10) as real), CodeWidth) == Str(ZFill(NatToDecimal(n / 10), 6)) by {
      assert Trunc((n / 10) as real) == n / 10;
    }
    FirstPassInjective(m, n / 10, CodeWidth);
  }

  // ---------------------------------------------------------------------------
  // The Warsaw consolidation
  // ---------------------------------------------------------------------------

  /** `.str.strip().str.lower()` on one cell; a cell that is not text becomes missing. */
  function LowerStripCell(c: Cell): Cell {
    if c.Str? then Str(Lower(Strip(c.s))) else Missing
  }

  predicate IsWarsaw(r: Row) {
    At(r, PowiatColumn) == Str("warszawa")
  }

  /** `df[~warszawa_mask]`: the rows outside Warsaw, in their order. */
  function NonWarsaw(rows: seq<Row>): (r: seq<Row>)
    ensures |r| <= |rows|
    ensures forall x :: x in r <==> x in rows && !IsWarsaw(x)
  {
    if rows == [] then []
    else if IsWarsaw(rows[0]) then NonWarsaw(rows[1..])
    else [rows[0]] + NonWarsaw(rows[1..])
  }

  /** `df[warszawa_mask]`: the Warsaw district rows, in their order. */
  function WarsawRows(rows: seq<Row>): (r: seq<Row>)
    ensures |r| <= |rows|
    ensures forall x :: x in r <==> x in rows && IsWarsaw(x)
  {
    if rows == [] then []
    else if IsWarsaw(rows[0]) then [rows[0]] + WarsawRows(rows[1..])
    else WarsawRows(rows[1..])
  }

  /**
    * The synthetic row: the column sums of every numeric column over the
    * Warsaw rows, then the fixed name fields and the Warsaw code.
    */
  function AggRow(wawa: seq<Row>, numeric: set<string>, teryt: string): Row {
    (map c | c in numeric :: Num(SumCol(wawa, c)))
      [GminaColumn := Str("Warszawa")]
      [PowiatColumn := Str("warszawa")]
      [WojewodztwoColumn := Str("mazowieckie")]
      [teryt := Str(WarsawCode)]
  }

  /** The column list of a concat: the frame's columns, then the names it lacks, in order. */
  function AppendAbsent(cols: seq<string>, names: seq<string>): (r: seq<string>)
    ensures |r| >= |cols| && r[..|cols|] == cols
    ensures forall n :: n in r <==> n in cols || n in names
    decreases |names|
  {
    if names == [] then cols
    else if names[0] in cols then AppendAbsent(cols, names[1..])
    else
      var r := AppendAbsent(cols + [names[0]], names[1..]);
      assert r[..|cols|] == (r[..|cols| + 1])[..|cols|];
      r
  }

  /** The table with `Powiat` trimmed and lower-cased (lines 31-32). */
  function Lowered(g: Frame): Frame {
    WithColumn(g, PowiatColumn, Apply(g, PowiatColumn, LowerStripCell), false)
  }

  /**
    * The Warsaw step: `Powiat` is trimmed and lower-cased; if some rows now
    * read "warszawa", they are replaced by one synthetic row appended after
    * the others. A KeyError without `Powiat`; `.str` fails on a numeric one.
    */
  function WarsawFix(g: Frame, teryt: string): (r: Result<Frame>)
    ensures r.Err? <==> PowiatColumn !in g.cols || PowiatColumn in g.numeric
  {
    if PowiatColumn !in g.cols then Err(KeyError(PowiatColumn))
    else if PowiatColumn in g.numeric then Err(StrOnNumeric(PowiatColumn))
    else
      var l := Lowered(g);
      var wawa := WarsawRows(l.rows);
      if wawa == [] then Ok(l)
      else
        Ok(Frame(AppendAbsent(l.cols, [GminaColumn, PowiatColumn, WojewodztwoColumn, teryt]),
                 l.numeric - {GminaColumn, PowiatColumn, WojewodztwoColumn, teryt},
                 NonWarsaw(l.rows) + [AggRow(wawa, l.numeric, teryt)]))
  }

  /** Splitting rows into Warsaw and non-Warsaw rows loses and invents none. */
  lemma {:induction false} WarsawPartition(rows: seq<Row>)
    ensures |NonWarsaw(rows)| + |WarsawRows(rows)| == |rows|
    ensures multiset(NonWarsaw(rows)) + multiset(WarsawRows(rows)) == multiset(rows)
    decreases |rows|
  {
    if rows != [] {
      WarsawPartition(rows[1..]);
      assert rows == [rows[0]] + rows[1..];
    }
  }

  /** The non-Warsaw rows keep their relative order: the filter distributes over concatenation. */
  lemma {:induction false} NonWarsawAppend(a: seq<Row>, b: seq<Row>)
    ensures NonWarsaw(a + b) == NonWarsaw(a) + NonWarsaw(b)
    decreases |a|
  {
    if a == [] {
      assert a + b == b;
    } else {
      assert (a + b)[0] == a[0] && (a + b)[1..] == a[1..] + b;
      NonWarsawAppend(a[1..], b);
    }
  }

  /** A column's total is the non-Warsaw total plus the Warsaw total. */
  lemma {:induction false} WarsawSumSplit(rows: seq<Row>, c: string)
    ensures SumCol(NonWarsaw(rows), c) + SumCol(WarsawRows(rows), c) == SumCol(rows, c)
    decreases |rows|
  {
    if rows != [] {
      WarsawSumSplit(rows[1..], c);
      if IsWarsaw(rows[0]) {
        assert ([rows[0]] + WarsawRows(rows[1..]))[1..] == WarsawRows(rows[1..]);
      } else {
        assert ([rows[0]] + NonWarsaw(rows[1..]))[1..] == NonWarsaw(rows[1..]);
      }
    }
  }

  lemma {:induction false} SumColSameCells(a: seq<Row>, b: seq<Row>, c: string)
    requires |a| == |b| && forall i :: 0 <= i < |a| ==> At(a[i], c) == At(b[i], c)
    ensures SumCol(a, c) == SumCol(b, c)
    decreases |a|
  {
    if a != [] {
      SumColSameCells(a[1..], b[1..], c);
    }
  }

  /** The four fields the synthetic row sets by name. */
  predicate IsFixedField(c: string, teryt: string) {
    c == GminaColumn || c == PowiatColumn || c == WojewodztwoColumn || c == teryt
  }

  /**
    * The Warsaw step, with `k` rows reading "warszawa" once `Powiat` is
    * trimmed and lower-cased. With k = 0 the table is unchanged apart from
    * that column. With k >= 1 the result has n - k + 1 rows: the other rows
    * in their order, then one row with the fixed names, the Warsaw code and,
    * in every other numeric column, the Warsaw total.
    */
  lemma WarsawConsolidation(g: Frame, teryt: string)
    requires PowiatColumn in g.cols && PowiatColumn !in g.numeric
    ensures WarsawFix(g, teryt).Ok?
    ensures var out := WarsawFix(g, teryt).value;
            var l := Lowered(g);
            var k := |WarsawRows(l.rows)|;
            (k == 0 ==>
               out.cols == g.cols && |out.rows| == |g.rows| &&
               (forall i :: 0 <= i < |g.rows| ==> At(out.rows[i], PowiatColumn) == LowerStripCell(At(g.rows[i], PowiatColumn))) &&
               (forall i, c :: 0 <= i < |g.rows| && c != PowiatColumn ==> At(out.rows[i], c) == At(g.rows[i], c))) &&
            (k >= 1 ==>
               |out.rows| == |g.rows| - k + 1 &&
               out.rows[..|out.rows| - 1] == NonWarsaw(l.rows) &&
               At(out.rows[|out.rows| - 1], teryt) == Str(WarsawCode) &&
               (teryt != GminaColumn ==> At(out.rows[|out.rows| - 1], GminaColumn) == Str("Warszawa")) &&
               (teryt != PowiatColumn ==> At(out.rows[|out.rows| - 1], PowiatColumn) == Str("warszawa")) &&
               (teryt != WojewodztwoColumn ==> At(out.rows[|out.rows| - 1], WojewodztwoColumn) == Str("mazowieckie")) &&
               (forall c :: c in g.numeric && !IsFixedField(c, teryt) ==>
                  At(out.rows[|out.rows| - 1], c) == Num(SumCol(WarsawRows(l.rows), c))))
  {
    var l := Lowered(g);
    if WarsawRows(l.rows) == [] {
      assert WarsawFix(g, teryt) == Ok(l);
    } else {
      WarsawPartition(l.rows);
      WarsawRowAppended(g, teryt);
    }
  }

  /** With some Warsaw rows, the result is the other rows followed by the synthetic row. */
  lemma WarsawRowAppended(g: Frame, teryt: string)
    requires PowiatColumn in g.cols && PowiatColumn !in g.numeric
    requires WarsawRows(Lowered(g).rows) != []
    ensures var l := Lowered(g);
            var wawa := WarsawRows(l.rows);
            WarsawFix(g, teryt) == Ok(Frame(AppendAbsent(l.cols, [GminaColumn, PowiatColumn, WojewodztwoColumn, teryt]),
                                            l.numeric - {GminaColumn, PowiatColumn, WojewodztwoColumn, teryt},
                                            NonWarsaw(l.rows) + [AggRow(wawa, l.numeric, teryt)]))
    ensures var l := Lowered(g);
            AggRowCells(WarsawRows(l.rows), l.numeric, teryt)
  {
    var l := Lowered(g);
    AggRowFields(WarsawRows(l.rows), l.numeric, teryt);
  }

  /** The cells of the synthetic row: the fixed names, the code, and the Warsaw totals. */
  predicate AggRowCells(wawa: seq<Row>, numeric: set<string>, teryt: string) {
    var agg := AggRow(wawa, numeric, teryt);
    At(agg, teryt) == Str(WarsawCode) &&
    (teryt != GminaColumn ==> At(agg, GminaColumn) == Str("Warszawa")) &&
    (teryt != PowiatColumn ==> At(agg, PowiatColumn) == Str("warszawa")) &&
    (teryt != WojewodztwoColumn ==> At(agg, WojewodztwoColumn) == Str("mazowieckie")) &&
    (forall c :: c in numeric && !IsFixedField(c, teryt) ==> At(agg, c) == Num(SumCol(wawa, c)))
  }

  lemma AggRowFields(wawa: seq<Row>, numeric: set<string>, teryt: string)
    ensures AggRowCells(wawa, numeric, teryt)
  {
    var agg := AggRow(wawa, numeric, teryt);
    forall c | c in numeric && !IsFixedField(c, teryt)
      ensures At(agg, c) == Num(SumCol(wawa, c))
    {
      assert agg[c] == (map d | d in numeric :: Num(SumCol(wawa, d)))[c];
    }
  }

  /**
    * The Warsaw step keeps the total of every numeric column it does not
    * overwrite: the synthetic row carries exactly what the removed rows held.
    */
  lemma WarsawKeepsTotals(g: Frame, teryt: string, c: string)
    requires PowiatColumn in g.cols && PowiatColumn !in g.numeric
    requires c in g.numeric && !IsFixedField(c, teryt)
    ensures WarsawFix(g, teryt).Ok?
    ensures SumCol(WarsawFix(g, teryt).value.rows, c) == SumCol(g.rows, c)
  {
    var l := Lowered(g);
    var out := WarsawFix(g, teryt).value;
    SumColSameCells(l.rows, g.rows, c);
    var wawa := WarsawRows(l.rows);
    if wawa != [] {
      var agg := AggRow(wawa, l.numeric, teryt);
      SumColAppend(NonWarsaw(l.rows), [agg], c);
      assert At(agg, c) == Num(SumCol(wawa, c));
      assert SumCol([agg], c) == SumCol(wawa, c) by {
        assert [agg][1..] == [];
      }
      WarsawSumSplit(l.rows, c);
    }
  }

  // ---------------------------------------------------------------------------
  // normalize_gminy_data
  // ---------------------------------------------------------------------------

  /** The only computed column the handlers pass: the ratio of two columns, each coerced to numbers. */
  datatype Computed = Ratio(numerator: string, denominator: string)

  /** The arguments of `normalize_gminy_data` (`computed_fn` given by what it computes). */
  datatype NormalizeArgs = NormalizeArgs(
    terytCol: string,
    valueCol: Option<string>,
    computedName: Option<string>,
    computedFn: Option<Computed>,
    warszawaFix: bool,
    terytLen: nat)

  /** Python truthiness of an optional column name: given and not empty. */
  predicate Truthy(o: Option<string>) {
    o.Some? && o.value != ""
  }

  /** `pd.to_numeric(a, errors="coerce") / pd.to_numeric(b, errors="coerce")` on one pair of cells. */
  function CoercedRatio(a: Cell, b: Cell): (r: Cell)
    ensures IsNumericCell(r)
  {
    RatioCell(ToNumericCell(a), ToNumericCell(b))
  }

  /** The computed column's value on one row. */
  function RatioOf(r: Row, fn: Computed): Cell {
    CoercedRatio(At(r, fn.numerator), At(r, fn.denominator))
  }

  /** The computed column over a table; a KeyError when one of its columns is absent. */
  function ComputedColumn(h: Frame, fn: Computed): (r: Result<seq<Cell>>)
    ensures r.Ok? <==> fn.numerator in h.cols && fn.denominator in h.cols
    ensures r.Ok? ==> |r.value| == |h.rows| && forall i :: 0 <= i < |h.rows| ==> r.value[i] == RatioOf(h.rows[i], fn)
  {
    if fn.numerator !in h.cols then Err(KeyError(fn.numerator))
    else if fn.denominator !in h.cols then Err(KeyError(fn.denominator))
    else Ok(seq(|h.rows|, i requires 0 <= i < |h.rows| => RatioOf(h.rows[i], fn)))
  }

  /** The table after the first pass over its code column (lines 23-29). */
  function FirstPassFrame(f: Frame, a: NormalizeArgs): Frame {
    WithColumn(f, a.terytCol, Apply(f, a.terytCol, c => FirstPassCode(c, a.terytLen)), false)
  }

  /**
    * The cleaned table (lines 22-44): codes through the first pass, the
    * optional Warsaw step, codes through the second pass.
    */
  function Cleaned(f: Frame, a: NormalizeArgs): (r: Result<Frame>)
    ensures r.Ok? ==> a.terytCol in r.value.cols && a.terytCol !in r.value.numeric
    ensures r.Ok? ==> forall c :: c in f.cols ==> c in r.value.cols
  {
    if a.terytCol !in f.cols then Err(KeyError(a.terytCol))
    else
      var g := FirstPassFrame(f, a);
      var fixed := if a.warszawaFix then WarsawFix(g, a.terytCol) else Ok(g);
      match fixed
      case Err(e) => Err(e)
      case Ok(h) =>
        match SecondPassCells(Column(h, a.terytCol), a.terytCol, a.terytLen)
        case Err(e) => Err(e)
        case Ok(codes) =>
          assert a.terytCol in AppendAbsent(g.cols, [GminaColumn, PowiatColumn, WojewodztwoColumn, a.terytCol]);
          Ok(WithColumn(h, a.terytCol, codes, false))
  }

  /**
    * Lines 46-53: `[code, computed]` when a computed name and function are
    * given, else `[code, value_col]` when a value column is, else the whole
    * cleaned table.
    */
  function SelectOutput(h: Frame, a: NormalizeArgs): (r: Result<Frame>)
    ensures Truthy(a.computedName) && a.computedFn.Some? && r.Ok? ==> r.value.cols == [a.terytCol, a.computedName.value]
    ensures !(Truthy(a.computedName) && a.computedFn.Some?) && Truthy(a.valueCol) ==>
              r == Select(h, [a.terytCol, a.valueCol.value])
    ensures !(Truthy(a.computedName) && a.computedFn.Some?) && !Truthy(a.valueCol) ==> r == Ok(h)
  {
    if Truthy(a.computedName) && a.computedFn.Some? then
      match ComputedColumn(h, a.computedFn.value)
      case Err(e) => Err(e)
      case Ok(cells) => Select(WithColumn(h, a.computedName.value, cells, true), [a.terytCol, a.computedName.value])
    else if Truthy(a.valueCol) then Select(h, [a.terytCol, a.valueCol.value])
    else Ok(h)
  }

  /** `normalize_gminy_data(df, ...)` as a value. */
  function NormalizeGminyDataSpec(f: Frame, a: NormalizeArgs): Result<Frame> {
    match Cleaned(f, a)
    case Err(e) => Err(e)
    case Ok(h) => SelectOutput(h, a)
  }

  /** Every code the first pass leaves goes through the second pass without error. */
  lemma FirstPassRowsSettle(f: Frame, a: NormalizeArgs)
    ensures var g := FirstPassFrame(f, a);
            forall j :: 0 <= j < |g.rows| ==> SecondPassCode(At(g.rows[j], a.terytCol), a.terytCol, a.terytLen).Ok?
  {
    var g := FirstPassFrame(f, a);
    forall j | 0 <= j < |g.rows|
      ensures SecondPassCode(At(g.rows[j], a.terytCol), a.terytCol, a.terytLen).Ok?
    {
      SecondPassSettles(At(f.rows[j], a.terytCol), a.terytCol, a.terytLen);
    }
  }

  /** The second pass succeeds on a table whose every code does. */
  lemma SecondPassSucceeds(h: Frame, col: string, width: nat)
    requires forall x :: x in h.rows ==> SecondPassCode(At(x, col), col, width).Ok?
    ensures SecondPassCells(Column(h, col), col, width).Ok?
  {
    forall i | 0 <= i < |h.rows| ensures SecondPassCode(Column(h, col)[i], col, width).Ok? {
      assert h.rows[i] in h.rows;
    }
  }

  /**
    * Cleaning raises exactly when the code column is absent or, with the
    * Warsaw step on, `Powiat` is absent or numeric; the second pass never
    * raises on what the first pass and the Warsaw step leave.
    */
  lemma CleanedSucceeds(f: Frame, a: NormalizeArgs)
    requires a.terytCol != PowiatColumn
    ensures Cleaned(f, a).Ok? <==>
              a.terytCol in f.cols && (a.warszawaFix ==> PowiatColumn in f.cols && PowiatColumn !in f.numeric)
  {
    if a.terytCol in f.cols {
      var g := FirstPassFrame(f, a);
      FirstPassRowsSettle(f, a);
      if !a.warszawaFix {
        SecondPassSucceeds(g, a.terytCol, a.terytLen);
      } else if PowiatColumn in g.cols && PowiatColumn !in g.numeric {
        WarsawPassSucceeds(f, a);
      }
    }
  }

  /** With `Powiat` present as text, the Warsaw step and the second pass both succeed. */
  lemma WarsawPassSucceeds(f: Frame, a: NormalizeArgs)
    requires a.terytCol != PowiatColumn && a.terytCol in f.cols
    requires var g := FirstPassFrame(f, a); PowiatColumn in g.cols && PowiatColumn !in g.numeric
    ensures var g := FirstPassFrame(f, a);
            WarsawFix(g, a.terytCol).Ok? &&
            SecondPassCells(Column(WarsawFix(g, a.terytCol).value, a.terytCol), a.terytCol, a.terytLen).Ok?
  {
    var g := FirstPassFrame(f, a);
    FirstPassRowsSettle(f, a);
    WarsawFixSettles(g, a.terytCol, a.terytLen);
    SecondPassSucceeds(WarsawFix(g, a.terytCol).value, a.terytCol, a.terytLen);
  }

  /** When every code of a table passes the second pass, every code of its Warsaw-fixed table does too. */
  lemma WarsawFixSettles(g: Frame, col: string, width: nat)
    requires col != PowiatColumn && PowiatColumn in g.cols && PowiatColumn !in g.numeric
    requires forall j :: 0 <= j < |g.rows| ==> SecondPassCode(At(g.rows[j], col), col, width).Ok?
    ensures WarsawFix(g, col).Ok?
    ensures forall x :: x in WarsawFix(g, col).value.rows ==> SecondPassCode(At(x, col), col, width).Ok?
  {
    var l := Lowered(g);
    assert forall j :: 0 <= j < |l.rows| ==> At(l.rows[j], col) == At(g.rows[j], col);
    if WarsawRows(l.rows) != [] {
      WarsawRowAppended(g, col);
      WarsawCodeSettles(col, width);
      var h := WarsawFix(g, col).value;
      forall x | x in h.rows ensures SecondPassCode(At(x, col), col, width).Ok? {
        if x in NonWarsaw(l.rows) {
          var j :| 0 <= j < |l.rows| && l.rows[j] == x;
        }
      }
    } else {
      forall x | x in l.rows ensures SecondPassCode(At(x, col), col, width).Ok? {
        var j :| 0 <= j < |l.rows| && l.rows[j] == x;
      }
    }
  }


  /**
    * Without the Warsaw step no row is added, removed or reordered (a code
    * that does not parse does not drop its row): each row keeps its cells,
    * and its code is the settled code of the original one.
    */
  lemma CleanedKeepsRows(f: Frame, a: NormalizeArgs)
    requires !a.warszawaFix && a.terytCol in f.cols
    ensures Cleaned(f, a).Ok?
    ensures var h := Cleaned(f, a).value;
            h.cols == f.cols && |h.rows| == |f.rows| &&
            (forall i :: 0 <= i < |f.rows| ==> At(h.rows[i], a.terytCol) == SettledCode(At(f.rows[i], a.terytCol), a.terytLen)) &&
            (forall i, c :: 0 <= i < |f.rows| && c != a.terytCol ==> At(h.rows[i], c) == At(f.rows[i], c))
  {
    var g := FirstPassFrame(f, a);
    FirstPassRowsSettle(f, a);
    SecondPassSucceeds(g, a.terytCol, a.terytLen);
    forall i | 0 <= i < |f.rows| {
      SecondPassSettles(At(f.rows[i], a.terytCol), a.terytCol, a.terytLen);
    }
  }

  /** Without the Warsaw step a row whose code does not parse is kept, with the code "<NA>" padded ("00<NA>"). */
  lemma UnparseableCodeKept(f: Frame, a: NormalizeArgs, i: nat)
    requires !a.warszawaFix && a.terytCol in f.cols && i < |f.rows|
    requires !ToNumericCell(At(f.rows[i], a.terytCol)).Num?
    ensures Cleaned(f, a).Ok? && |Cleaned(f, a).value.rows| == |f.rows|
    ensures At(Cleaned(f, a).value.rows[i], a.terytCol) == Str(ZFill(NAText, a.terytLen))
    ensures a.terytLen == CodeWidth ==> ZFill(NAText, a.terytLen) == "00<NA>"
  {
    CleanedKeepsRows(f, a);
    UnparseableSettles(At(f.rows[i], a.terytCol), a.terytLen);
  }

  /** A code that does not parse as a number settles as "<NA>", padded; at width 6 that is "00<NA>". */
  lemma UnparseableSettles(c: Cell, width: nat)
    requires !ToNumericCell(c).Num?
    ensures SettledCode(c, width) == Str(ZFill(NAText, width))
    ensures width == CodeWidth ==> ZFill(NAText, width) == "00<NA>"
  {
  }

  /** A row of the original table that the Warsaw step folds away. */
  predicate InWarsaw(r: Row) {
    LowerStripCell(At(r, PowiatColumn)) == Str("warszawa")
  }

  /** How many rows of the original table the Warsaw step folds. */
  function WarsawCount(rows: seq<Row>): nat {
    if rows == [] then 0 else (if InWarsaw(rows[0]) then 1 else 0) + WarsawCount(rows[1..])
  }

  /** The total of column `c` over the rows the Warsaw step folds. */
  function WarsawTotal(rows: seq<Row>, c: string): real {
    if rows == [] then 0.0 else (if InWarsaw(rows[0]) then CellAmount(At(rows[0], c)) else 0.0) + WarsawTotal(rows[1..], c)
  }

  /** A table whose `Powiat` was lowered has as many Warsaw rows as the original folds. */
  lemma {:induction false} WarsawCountOfLowered(a: seq<Row>, b: seq<Row>)
    requires |a| == |b|
    requires forall i :: 0 <= i < |a| ==> At(b[i], PowiatColumn) == LowerStripCell(At(a[i], PowiatColumn))
    ensures |WarsawRows(b)| == WarsawCount(a)
    decreases |a|
  {
    if a != [] {
      WarsawCountOfLowered(a[1..], b[1..]);
    }
  }

  /** The Warsaw rows of a table whose `Powiat` was lowered total what the original's Warsaw rows do. */
  lemma {:induction false} WarsawTotalOfLowered(a: seq<Row>, b: seq<Row>, c: string)
    requires |a| == |b|
    requires forall i :: 0 <= i < |a| ==> At(b[i], PowiatColumn) == LowerStripCell(At(a[i], PowiatColumn))
    requires forall i :: 0 <= i < |a| ==> At(b[i], c) == At(a[i], c)
    ensures SumCol(WarsawRows(b), c) == WarsawTotal(a, c)
    decreases |a|
  {
    if a != [] {
      WarsawTotalOfLowered(a[1..], b[1..], c);
      if IsWarsaw(b[0]) {
        assert ([b[0]] + WarsawRows(b[1..]))[1..] == WarsawRows(b[1..]);
      }
    }
  }

  /** The first pass and the lowering of `Powiat` touch only those two columns. */
  lemma LoweredFirstPass(f: Frame, a: NormalizeArgs)
    requires a.terytCol in f.cols && a.terytCol != PowiatColumn && PowiatColumn in f.cols
    ensures var l := Lowered(FirstPassFrame(f, a));
            |l.rows| == |f.rows| && l.cols == f.cols && l.numeric == f.numeric - {a.terytCol, PowiatColumn} &&
            (forall i :: 0 <= i < |f.rows| ==> At(l.rows[i], PowiatColumn) == LowerStripCell(At(f.rows[i], PowiatColumn))) &&
            (forall i, c :: 0 <= i < |f.rows| && c != a.terytCol && c != PowiatColumn ==> At(l.rows[i], c) == At(f.rows[i], c))
  {
  }

  /** With the Warsaw step on, cleaning is the second pass applied to what the Warsaw step returns. */
  lemma CleanedUnfold(f: Frame, a: NormalizeArgs)
    requires a.warszawaFix && Cleaned(f, a).Ok?
    ensures var h := WarsawFix(FirstPassFrame(f, a), a.terytCol);
            h.Ok? && SecondPassCells(Column(h.value, a.terytCol), a.terytCol, a.terytLen).Ok? &&
            Cleaned(f, a).value ==
              WithColumn(h.value, a.terytCol, SecondPassCells(Column(h.value, a.terytCol), a.terytCol, a.terytLen).value, false)
  {
  }

  /** The second pass rewrites only the code column; a Warsaw code in the last row comes out padded. */
  lemma SecondPassLastRow(h: Frame, col: string, width: nat)
    requires |h.rows| >= 1 && At(h.rows[|h.rows| - 1], col) == Str(WarsawCode)
    requires SecondPassCells(Column(h, col), col, width).Ok?
    ensures var out := WithColumn(h, col, SecondPassCells(Column(h, col), col, width).value, false);
            var n := |h.rows| - 1;
            |out.rows| == |h.rows| && At(out.rows[n], col) == Str(ZFill(WarsawCode, width)) &&
            forall c :: c != col ==> At(out.rows[n], c) == At(h.rows[n], c)
  {
    var codes := SecondPassCells(Column(h, col), col, width).value;
    var n := |h.rows| - 1;
    WarsawCodeSettles(col, width);
    assert SecondPassCode(Column(h, col)[n], col, width) == Ok(codes[n]);
  }

  /**
    * The last row the Warsaw step appends holds the Warsaw code and the
    * Warsaw totals of the original table.
    */
  lemma WarsawFixLastRow(f: Frame, a: NormalizeArgs)
    requires a.terytCol in f.cols && a.terytCol != PowiatColumn
    requires PowiatColumn in f.cols && PowiatColumn !in f.numeric
    requires WarsawCount(f.rows) >= 1
    ensures WarsawFix(FirstPassFrame(f, a), a.terytCol).Ok?
    ensures var h := WarsawFix(FirstPassFrame(f, a), a.terytCol).value;
            |h.rows| == |f.rows| - WarsawCount(f.rows) + 1 &&
            At(h.rows[|h.rows| - 1], a.terytCol) == Str(WarsawCode) &&
            forall c :: c in f.numeric && !IsFixedField(c, a.terytCol) ==>
              At(h.rows[|h.rows| - 1], c) == Num(WarsawTotal(f.rows, c))
  {
    var g := FirstPassFrame(f, a);
    var l := Lowered(g);
    LoweredFirstPass(f, a);
    WarsawCountOfLowered(f.rows, l.rows);
    WarsawConsolidation(g, a.terytCol);
    forall c | c in f.numeric && !IsFixedField(c, a.terytCol)
      ensures At(WarsawFix(g, a.terytCol).value.rows[|f.rows| - WarsawCount(f.rows)], c) == Num(WarsawTotal(f.rows, c))
    {
      WarsawTotalOfLowered(f.rows, l.rows, c);
      assert c in g.numeric;
    }
  }

  /**
    * With the Warsaw step on and k >= 1 Warsaw rows, the cleaned table has
    * n - k + 1 rows and its last row carries the Warsaw code and, in every
    * numeric column other than the fixed fields, the Warsaw total.
    */
  lemma CleanedConsolidates(f: Frame, a: NormalizeArgs)
    requires a.warszawaFix && a.terytCol in f.cols && a.terytCol != PowiatColumn
    requires PowiatColumn in f.cols && PowiatColumn !in f.numeric
    requires WarsawCount(f.rows) >= 1
    ensures Cleaned(f, a).Ok?
    ensures var h := Cleaned(f, a).value;
            |h.rows| == |f.rows| - WarsawCount(f.rows) + 1 &&
            At(h.rows[|h.rows| - 1], a.terytCol) == Str(ZFill(WarsawCode, a.terytLen)) &&
            forall c :: c in f.numeric && !IsFixedField(c, a.terytCol) ==>
              At(h.rows[|h.rows| - 1], c) == Num(WarsawTotal(f.rows, c))
  {
    CleanedSucceeds(f, a);
    CleanedUnfold(f, a);
    WarsawFixLastRow(f, a);
    var h := WarsawFix(FirstPassFrame(f, a), a.terytCol).value;
    SecondPassLastRow(h, a.terytCol, a.terytLen);
  }

  /** The computed branch of the output selection: a two-column table, row by row the code and the ratio. */
  lemma SelectComputed(h: Frame, a: NormalizeArgs)
    requires Truthy(a.computedName) && a.computedFn.Some? && a.computedName.value != a.terytCol
    requires a.terytCol in h.cols && a.computedFn.value.numerator in h.cols && a.computedFn.value.denominator in h.cols
    ensures SelectOutput(h, a).Ok?
    ensures var out := SelectOutput(h, a).value;
            out.cols == [a.terytCol, a.computedName.value] && |out.rows| == |h.rows| &&
            forall i :: 0 <= i < |h.rows| ==>
              At(out.rows[i], a.terytCol) == At(h.rows[i], a.terytCol) &&
              At(out.rows[i], a.computedName.value) == RatioOf(h.rows[i], a.computedFn.value)
  {
  }

  /**
    * The share of the consolidated Warsaw row is computed after the
    * consolidation, so it is the ratio of the Warsaw totals (sum/sum), not a
    * combination of the district ratios.
    */
  lemma WarsawShareIsRatioOfTotals(f: Frame, a: NormalizeArgs)
    requires a.warszawaFix && a.terytCol in f.cols && a.terytCol != PowiatColumn
    requires PowiatColumn in f.cols && PowiatColumn !in f.numeric
    requires WarsawCount(f.rows) >= 1
    requires Truthy(a.computedName) && a.computedFn.Some?
    requires a.computedName.value != a.terytCol
    requires var fn := a.computedFn.value;
             fn.numerator in f.numeric && fn.denominator in f.numeric &&
             fn.numerator in f.cols && fn.denominator in f.cols &&
             !IsFixedField(fn.numerator, a.terytCol) && !IsFixedField(fn.denominator, a.terytCol)
    ensures NormalizeGminyDataSpec(f, a).Ok?
    ensures var out := NormalizeGminyDataSpec(f, a).value;
            var fn := a.computedFn.value;
            out.cols == [a.terytCol, a.computedName.value] &&
            |out.rows| == |f.rows| - WarsawCount(f.rows) + 1 &&
            At(out.rows[|out.rows| - 1], a.terytCol) == Str(ZFill(WarsawCode, a.terytLen)) &&
            At(out.rows[|out.rows| - 1], a.computedName.value) ==
              RatioCell(Num(WarsawTotal(f.rows, fn.numerator)), Num(WarsawTotal(f.rows, fn.denominator)))
  {
    CleanedConsolidates(f, a);
    var h := Cleaned(f, a).value;
    SelectComputed(h, a);
    assert NormalizeGminyDataSpec(f, a) == SelectOutput(h, a);
  }

  /**
    * `normalize_gminy_data`: works on a copy (the caller's table is not
    * touched) and returns a new table.
    */
  method NormalizeGminyData(df: DataFrame, a: NormalizeArgs) returns (r: Result<DataFrame>)
    ensures Agrees(r, NormalizeGminyDataSpec(df.Value(), a))
    ensures r.Ok? ==> fresh(r.value)
  {
    var f := df.Value();
    if a.terytCol !in df.cols {
      return Err(KeyError(a.terytCol));
    }
    var d := df.Copy();
    d.Assign(a.terytCol, Apply(d.Value(), a.terytCol, c => FirstPassCode(c, a.terytLen)), false);
    var g := d.Value();
    assert g == FirstPassFrame(f, a);
    if a.warszawaFix {
      if PowiatColumn !in d.cols {
        return Err(KeyError(PowiatColumn));
      }
      if PowiatColumn in d.numeric {
        return Err(StrOnNumeric(PowiatColumn));
      }
      d.Assign(PowiatColumn, Apply(d.Value(), PowiatColumn, LowerStripCell), false);
      var wawa := WarsawRows(d.rows);
      if wawa != [] {
        var agg := AggRow(wawa, d.numeric, a.terytCol);
        d := new DataFrame(Frame(AppendAbsent(d.cols, [GminaColumn, PowiatColumn, WojewodztwoColumn, a.terytCol]),
                                 d.numeric - {GminaColumn, PowiatColumn, WojewodztwoColumn, a.terytCol},
                                 NonWarsaw(d.rows) + [agg]));
      }
      assert WarsawFix(g, a.terytCol) == Ok(d.Value());
    }
    var codes := SecondPassCells(Column(d.Value(), a.terytCol), a.terytCol, a.terytLen);
    if codes.Err? {
      return Err(codes.error);
    }
    d.Assign(a.terytCol, codes.value, false);
    assert Cleaned(f, a) == Ok(d.Value());
    if Truthy(a.computedName) && a.computedFn.Some? {
      var cells := ComputedColumn(d.Value(), a.computedFn.value);
      if cells.Err? {
        return Err(cells.error);
      }
      d.Assign(a.computedName.value, cells.value, true);
      r := d.Pick([a.terytCol, a.computedName.value]);
    } else if Truthy(a.valueCol) {
      r := d.Pick([a.terytCol, a.valueCol.value]);
    } else {
      r := Ok(d);
    }
  }

  /** The arguments `normalize_gminy_share` passes on: the code column "TERYT Gminy" and a ratio. */
  function ShareArgs(numerator: string, denominator: string, shareName: string, warszawaFix: bool): (a: NormalizeArgs)
    ensures a.terytCol == GminaCodeColumn && a.terytLen == CodeWidth && a.valueCol.None?
    ensures a.computedName == Some(shareName) && a.computedFn == Some(Ratio(numerator, denominator))
  {
    NormalizeArgs(GminaCodeColumn, None, Some(shareName), Some(Ratio(numerator, denominator)), warszawaFix, CodeWidth)
  }

  /** `normalize_gminy_share`: the share of two columns per municipality code. */
  method NormalizeGminyShare(df: DataFrame, numerator: string, denominator: string, shareName: string, warszawaFix: bool)
    returns (r: Result<DataFrame>)
    ensures Agrees(r, NormalizeGminyDataSpec(df.Value(), ShareArgs(numerator, denominator, shareName, warszawaFix)))
    ensures r.Ok? ==> fresh(r.value)
  {
    r := NormalizeGminyData(df, ShareArgs(numerator, denominator, shareName, warszawaFix));
  }

  // ---------------------------------------------------------------------------
  // to_num
  // ---------------------------------------------------------------------------

  /**
    * `to_num` on one cell: the text form with ',' turned into '.' and trimmed,
    * then parsed; what does not parse becomes missing rather than raising.
    */
  function ToNumCell(c: Cell): (r: Cell)
    ensures IsNumericCell(r)
    ensures c.Num? ==> r == c
  {
    match c
    case Num(x) => Num(x)
    case Missing => Missing
    case Str(s) => match ParseNumber(Strip(ReplaceComma(s))) case Some(v) => Num(v) case None => Missing
  }

  /** `to_num(col)` over a column. */
  function ToNum(cells: seq<Cell>): (r: seq<Cell>)
    ensures |r| == |cells| && forall i :: 0 <= i < |cells| ==> r[i] == ToNumCell(cells[i])
  {
    seq(|cells|, i requires 0 <= i < |cells| => ToNumCell(cells[i]))
  }
}
