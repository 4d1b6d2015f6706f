/**
  * The handlers for the first round of the 2025 presidential election, one
  * per administrative level and view, and the boundary preprocessor for
  * voivodeships (województwa). Municipality (gmina) handlers delegate to
  * `normalize_gminy_data`; county (powiat), voivodeship and national
  * (Polska) handlers write their columns into the frame they are given.
  */
module FirstRound {
  import opened Wrappers
  import opened Text
  import opened Frames
  import opened Utilities

  const ValidVotesColumn := "Liczba głosów ważnych oddanych łącznie na wszystkich kandydatów"
  const InvalidVotesColumn := "Liczba głosów nieważnych"
  const EligibleColumn := "Liczba wyborców uprawnionych do głosowania"
  const VotedColumn :=
    "Liczba wyborców, którym wydano karty do głosowania w lokalu wyborczym oraz w głosowaniu korespondencyjnym (łącznie)"
  const TrzaskowskiColumn := "TRZASKOWSKI Rafał Kazimierz"

  const PowiatCodeColumn := "TERYT Powiatu"
  const PowiatKeyColumn := "TERYT4"
  const RegionNameColumn := "JPT_NAZWA_"
  const NationalKey := "0"

  const TurnoutColumn := "turnout"
  const InvalidShareColumn := "invalid_share"
  const TrzaskowskiShareColumn := "trzaskowski_share"

  // ---------------------------------------------------------------------------
  // Municipalities (gminy)
  // ---------------------------------------------------------------------------

  /** `handler_gminy_turnout`: voted / eligible per code, Warsaw consolidated first. */
  const GminyTurnoutArgs := NormalizeArgs(GminaCodeColumn, None, Some(TurnoutColumn),
                                          Some(Ratio(VotedColumn, EligibleColumn)), true, CodeWidth)
  /** `handler_gminy_invalid`: the invalid-vote count per code. */
  const GminyInvalidArgs := NormalizeArgs(GminaCodeColumn, Some(InvalidVotesColumn), None, None, true, CodeWidth)
  /** `handler_gminy_invalid_share`: invalid / valid votes. */
  const GminyInvalidShareArgs := ShareArgs(InvalidVotesColumn, ValidVotesColumn, InvalidShareColumn, true)
  /** `handler_gminy_trzaskowski_share`: Trzaskowski / valid votes. */
  const GminyTrzaskowskiShareArgs := ShareArgs(TrzaskowskiColumn, ValidVotesColumn, TrzaskowskiShareColumn, true)

  method GminyTurnout(df: DataFrame) returns (r: Result<DataFrame>)
    ensures Agrees(r, NormalizeGminyDataSpec(df.Value(), GminyTurnoutArgs))
    ensures r.Ok? ==> fresh(r.value)
  {
    r := NormalizeGminyData(df, GminyTurnoutArgs);
  }

  method GminyInvalid(df: DataFrame) returns (r: Result<DataFrame>)
    ensures Agrees(r, NormalizeGminyDataSpec(df.Value(), GminyInvalidArgs))
    ensures r.Ok? ==> fresh(r.value)
  {
    r := NormalizeGminyData(df, GminyInvalidArgs);
  }

  method GminyInvalidShare(df: DataFrame) returns (r: Result<DataFrame>)
    ensures Agrees(r, NormalizeGminyDataSpec(df.Value(), GminyInvalidShareArgs))
    ensures r.Ok? ==> fresh(r.value)
  {
    r := NormalizeGminyShare(df, InvalidVotesColumn, ValidVotesColumn, InvalidShareColumn, true);
  }

  method GminyTrzaskowskiShare(df: DataFrame) returns (r: Result<DataFrame>)
    ensures Agrees(r, NormalizeGminyDataSpec(df.Value(), GminyTrzaskowskiShareArgs))
    ensures r.Ok? ==> fresh(r.value)
  {
    r := NormalizeGminyShare(df, TrzaskowskiColumn, ValidVotesColumn, TrzaskowskiShareColumn, true);
  }

  /**
    * Every municipality handler keys on "TERYT Gminy" with the Warsaw step
    * on, and returns exactly the code column and its value column.
    */
  lemma GminyHandlersShape(f: Frame)
    ensures forall a :: a in {GminyTurnoutArgs, GminyInvalidArgs, GminyInvalidShareArgs, GminyTrzaskowskiShareArgs} ==>
              a.terytCol == GminaCodeColumn && a.warszawaFix && a.terytLen == CodeWidth
    ensures NormalizeGminyDataSpec(f, GminyTurnoutArgs).Ok? ==>
              NormalizeGminyDataSpec(f, GminyTurnoutArgs).value.cols == [GminaCodeColumn, TurnoutColumn]
    ensures NormalizeGminyDataSpec(f, GminyInvalidArgs).Ok? ==>
              NormalizeGminyDataSpec(f, GminyInvalidArgs).value.cols == [GminaCodeColumn, InvalidVotesColumn]
    ensures NormalizeGminyDataSpec(f, GminyInvalidShareArgs).Ok? ==>
              NormalizeGminyDataSpec(f, GminyInvalidShareArgs).value.cols == [GminaCodeColumn, InvalidShareColumn]
    ensures NormalizeGminyDataSpec(f, GminyTrzaskowskiShareArgs).Ok? ==>
              NormalizeGminyDataSpec(f, GminyTrzaskowskiShareArgs).value.cols == [GminaCodeColumn, TrzaskowskiShareColumn]
  {
  }

  // ---------------------------------------------------------------------------
  // Counties (powiaty)
  // ---------------------------------------------------------------------------

  /** `pd.to_numeric(code, errors="coerce").astype(str).str.zfill(6)` on one county code. */
  function PowiatCode(c: Cell): (r: Cell)
    ensures r.Str? && |r.s| >= 6
  {
    Str(ZFill(CellText(ToNumericCell(c)), 6))
  }

  /** `.str[:4]` on one cell; a cell that is not text gives missing. */
  function CountyPrefix(c: Cell): (r: Cell)
    ensures c.Str? ==> r.Str? && |r.s| == (if |c.s| < 4 then |c.s| else 4) && r.s == c.s[..|r.s|]
  {
    if c.Str? then Str(Take(c.s, 4)) else Missing
  }

  /** The frame an in-place handler leaves behind: its new value on success, else unchanged. */
  function StateAfter(s: Result<Frame>, f: Frame): Frame {
    if s.Ok? then s.value else f
  }

  /** The table with its county code padded and the 4-character county key added (lines 58-59). */
  function PowiatyKeys(f: Frame): Frame {
    var g := WithColumn(f, PowiatCodeColumn, Apply(f, PowiatCodeColumn, PowiatCode), false);
    WithColumn(g, PowiatKeyColumn, Apply(g, PowiatCodeColumn, CountyPrefix), false)
  }

  /**
    * The table a county handler leaves: the keys, then the ratio column
    * `name` of `num` over `den`; a KeyError names the first column that is
    * absent, in the order the handler reads them.
    */
  function PowiatyRatio(f: Frame, num: string, den: string, name: string): (r: Result<Frame>)
    ensures r.Ok? <==> PowiatCodeColumn in f.cols && num in f.cols && den in f.cols
    ensures r.Ok? ==> forall c :: c in f.cols ==> c in r.value.cols
    ensures r.Ok? ==> PowiatKeyColumn in r.value.cols && name in r.value.cols
  {
    match FirstAbsent([PowiatCodeColumn, num, den], f.cols)
    case Some(n) => Err(KeyError(n))
    case None =>
      var k := PowiatyKeys(f);
      Ok(WithColumn(k, name, Apply2(k, num, den, CoercedRatio), true))
  }

  /** `handler_powiaty_turnout`: the whole table with the keys and "turnout" added. */
  function PowiatyTurnoutSpec(f: Frame): Result<Frame> {
    PowiatyRatio(f, VotedColumn, EligibleColumn, TurnoutColumn)
  }

  /** `handler_powiaty_share`: only the county key and the share. */
  function PowiatyShareSpec(f: Frame, num: string, den: string, name: string): Result<Frame> {
    match PowiatyRatio(f, num, den, name)
    case Err(e) => Err(e)
    case Ok(g) => Select(g, [PowiatKeyColumn, name])
  }

  /** Writes the county keys and the ratio into `df` (the frame given is the frame returned). */
  method PowiatyRatioInPlace(df: DataFrame, num: string, den: string, name: string) returns (r: Result<DataFrame>)
    modifies df
    ensures Agrees(r, PowiatyRatio(old(df.Value()), num, den, name))
    ensures r.Ok? ==> r.value == df
    ensures r.Err? ==> df.Value() == old(df.Value())
  {
    var missing := FirstAbsent([PowiatCodeColumn, num, den], df.cols);
    if missing.Some? {
      return Err(KeyError(missing.value));
    }
    df.Assign(PowiatCodeColumn, Apply(df.Value(), PowiatCodeColumn, PowiatCode), false);
    df.Assign(PowiatKeyColumn, Apply(df.Value(), PowiatCodeColumn, CountyPrefix), false);
    df.Assign(name, Apply2(df.Value(), num, den, CoercedRatio), true);
    return Ok(df);
  }

  method PowiatyTurnout(df: DataFrame) returns (r: Result<DataFrame>)
    modifies df
    ensures Agrees(r, PowiatyTurnoutSpec(old(df.Value())))
    ensures r.Ok? ==> r.value == df
    ensures r.Err? ==> df.Value() == old(df.Value())
  {
    r := PowiatyRatioInPlace(df, VotedColumn, EligibleColumn, TurnoutColumn);
  }

  method PowiatyShare(df: DataFrame, num: string, den: string, name: string) returns (r: Result<DataFrame>)
    modifies df
    ensures Agrees(r, PowiatyShareSpec(old(df.Value()), num, den, name))
    ensures df.Value() == StateAfter(PowiatyRatio(old(df.Value()), num, den, name), old(df.Value()))
    ensures r.Ok? ==> fresh(r.value)
  {
    var g := PowiatyRatioInPlace(df, num, den, name);
    if g.Err? {
      return Err(g.error);
    }
    r := df.Pick([PowiatKeyColumn, name]);
  }

  method PowiatyInvalidShare(df: DataFrame) returns (r: Result<DataFrame>)
    modifies df
    ensures Agrees(r, PowiatyShareSpec(old(df.Value()), InvalidVotesColumn, ValidVotesColumn, InvalidShareColumn))
    ensures df.Value() == StateAfter(PowiatyRatio(old(df.Value()), InvalidVotesColumn, ValidVotesColumn, InvalidShareColumn), old(df.Value()))
    ensures r.Ok? ==> fresh(r.value)
  {
    r := PowiatyShare(df, InvalidVotesColumn, ValidVotesColumn, InvalidShareColumn);
  }

  method PowiatyTrzaskowskiShare(df: DataFrame) returns (r: Result<DataFrame>)
    modifies df
    ensures Agrees(r, PowiatyShareSpec(old(df.Value()), TrzaskowskiColumn, ValidVotesColumn, TrzaskowskiShareColumn))
    ensures df.Value() == StateAfter(PowiatyRatio(old(df.Value()), TrzaskowskiColumn, ValidVotesColumn, TrzaskowskiShareColumn), old(df.Value()))
    ensures r.Ok? ==> fresh(r.value)
  {
    r := PowiatyShare(df, TrzaskowskiColumn, ValidVotesColumn, TrzaskowskiShareColumn);
  }

  /** The county key of a code held as a number `n < 10^6` is `n / 100` padded to four digits. */
  lemma PowiatKeyOfNumber(n: nat)
    requires n < Pow10(6)
    ensures CountyPrefix(PowiatCode(Num(n as real))) == Str(ZFill(NatToDecimal(n / 100), 4))
  {
    assert Trunc(n as real) == n;
    DropLastDigit(n, 6);
    DropLastDigit(n / 10, 5);
    assert n / 10 / 10 == n / 100;
    var s := ZFill(NatToDecimal(n), 6);
    assert Take(s, 4) == s[..5][..4];
  }

  /**
    * `str` of a whole number `n` in a float column, as pandas renders it
    * ("20100.0"). A column becomes float as soon as `to_numeric` leaves one
    * of its cells NaN, which `handler_powiaty_*` does not undo with `.astype(int)`.
    */
  function FloatText(n: nat): string {
    NatToDecimal(n) + ".0"
  }

  /**
    * The county code 020100 read back from a float column: `zfill(6)` adds
    * nothing to the 7-character "20100.0", so `[:4]` gives "2010" where the
    * county key "0201" is meant, the key `PowiatCode` gives for the same code.
    */
  lemma FloatCountyKeyShifted()
    ensures CountyPrefix(Str(ZFill(FloatText(20100), 6))) == Str("2010")
    ensures CountyPrefix(PowiatCode(Num(20100 as real))) == Str("0201")
  {
    assert NatToDecimal(2) == "2";
    assert NatToDecimal(20) == "20";
    assert NatToDecimal(201) == "201";
    assert NatToDecimal(2010) == "2010";
    var t := FloatText(20100);
    assert t == "20100.0";
    assert Take(t, 4) == "2010";
    IntegerCountyKey();
  }

  /** The same code read from an integer column keys to "0201". */
  lemma IntegerCountyKey()
    ensures CountyPrefix(PowiatCode(Num(20100 as real))) == Str("0201")
  {
    assert Trunc(20100 as real) == 20100;
    assert NatToDecimal(2) == "2";
    assert NatToDecimal(20) == "20";
    assert NatToDecimal(201) == "201";
    assert NatToDecimal(2010) == "2010";
    assert IntToDecimal(20100) == "20100";
    assert Zeros(1) == "0";
    var k := ZFill("20100", 6);
    assert k == "020100";
    assert Take(k, 4) == "0201";
  }

  /** The county key of a 6-digit code text is its first four characters. */
  lemma PowiatKeyOfDigits(s: string)
    requires IsDigits(s) && |s| == 6
    ensures CountyPrefix(PowiatCode(Str(s))) == Str(s[..4])
  {
    ParseDigits(s);
    assert Trunc(DigitsValue(s) as real) == DigitsValue(s);
    ZFillCanonical(s);
  }

  /**
    * The two county views differ in shape: turnout returns the whole table
    * (every input column kept, the keys and "turnout" added), a share only
    * the key and the share.
    */
  lemma PowiatyShapes(f: Frame, num: string, den: string, name: string)
    ensures PowiatyTurnoutSpec(f).Ok? ==>
              (forall c :: c in f.cols ==> c in PowiatyTurnoutSpec(f).value.cols) &&
              PowiatKeyColumn in PowiatyTurnoutSpec(f).value.cols && TurnoutColumn in PowiatyTurnoutSpec(f).value.cols &&
              |PowiatyTurnoutSpec(f).value.rows| == |f.rows|
    ensures PowiatyShareSpec(f, num, den, name).Ok? ==>
              PowiatyShareSpec(f, num, den, name).value.cols == [PowiatKeyColumn, name]
    ensures PowiatyShareSpec(f, num, den, name).Ok? <==> PowiatCodeColumn in f.cols && num in f.cols && den in f.cols
  {
  }

  // ---------------------------------------------------------------------------
  // Voivodeships (województwa)
  // ---------------------------------------------------------------------------

  /**
    * `preprocess_wojewodztwa_geo`: the boundary key becomes the region name
    * as text (a new last column when there was none); a KeyError without a
    * `JPT_NAZWA_` column; nothing else changes.
    */
  function PreprocessWojewodztwaGeoSpec(gdf: Frame): (r: Result<Frame>)
    ensures r.Ok? <==> RegionNameColumn in gdf.cols
    ensures r.Err? ==> r.error == KeyError(RegionNameColumn)
    ensures r.Ok? ==> |r.value.rows| == |gdf.rows| && BoundaryCodeColumn in r.value.cols &&
                      forall i :: 0 <= i < |gdf.rows| ==>
                        At(r.value.rows[i], BoundaryCodeColumn) == Str(CellText(At(gdf.rows[i], RegionNameColumn)))
    ensures r.Ok? ==> r.value.cols == (if BoundaryCodeColumn in gdf.cols then gdf.cols else gdf.cols + [BoundaryCodeColumn])
    ensures r.Ok? ==> r.value.numeric == gdf.numeric - {BoundaryCodeColumn}
    ensures r.Ok? ==> forall i, c :: 0 <= i < |gdf.rows| && c != BoundaryCodeColumn ==>
                        At(r.value.rows[i], c) == At(gdf.rows[i], c)
  {
    if RegionNameColumn !in gdf.cols then Err(KeyError(RegionNameColumn))
    else Ok(WithColumn(gdf, BoundaryCodeColumn, Apply(gdf, RegionNameColumn, c => Str(CellText(c))), false))
  }

  method PreprocessWojewodztwaGeo(gdf: DataFrame) returns (r: Result<DataFrame>)
    modifies gdf
    ensures Agrees(r, PreprocessWojewodztwaGeoSpec(old(gdf.Value())))
    ensures r.Ok? ==> r.value == gdf
    ensures r.Err? ==> gdf.Value() == old(gdf.Value())
  {
    if RegionNameColumn !in gdf.cols {
      return Err(KeyError(RegionNameColumn));
    }
    gdf.Assign(BoundaryCodeColumn, Apply(gdf.Value(), RegionNameColumn, c => Str(CellText(c))), false);
    return Ok(gdf);
  }

  /**
    * The table a voivodeship handler leaves: names trimmed and lower-cased,
    * then the ratio column; errors in the order the handler meets them.
    */
  function WojewodztwaRatio(f: Frame, num: string, den: string, name: string): (r: Result<Frame>)
    ensures r.Ok? <==> WojewodztwoColumn in f.cols && WojewodztwoColumn !in f.numeric && num in f.cols && den in f.cols
    ensures r.Ok? ==> forall c :: c in f.cols ==> c in r.value.cols
    ensures r.Ok? ==> name in r.value.cols
  {
    if WojewodztwoColumn !in f.cols then Err(KeyError(WojewodztwoColumn))
    else if WojewodztwoColumn in f.numeric then Err(StrOnNumeric(WojewodztwoColumn))
    else
      match FirstAbsent([num, den], f.cols)
      case Some(n) => Err(KeyError(n))
      case None =>
        var g := WithColumn(f, WojewodztwoColumn, Apply(f, WojewodztwoColumn, LowerStripCell), false);
        Ok(WithColumn(g, name, Apply2(g, num, den, CoercedRatio), true))
  }

  function WojewodztwaTurnoutSpec(f: Frame): Result<Frame> {
    WojewodztwaRatio(f, VotedColumn, EligibleColumn, TurnoutColumn)
  }

  function WojewodztwaShareSpec(f: Frame, num: string, den: string, name: string): Result<Frame> {
    match WojewodztwaRatio(f, num, den, name)
    case Err(e) => Err(e)
    case Ok(g) => Select(g, [WojewodztwoColumn, name])
  }

  method WojewodztwaRatioInPlace(df: DataFrame, num: string, den: string, name: string) returns (r: Result<DataFrame>)
    modifies df
    ensures Agrees(r, WojewodztwaRatio(old(df.Value()), num, den, name))
    ensures r.Ok? ==> r.value == df
    ensures r.Err? ==> df.Value() == old(df.Value())
  {
    if WojewodztwoColumn !in df.cols {
      return Err(KeyError(WojewodztwoColumn));
    }
    if WojewodztwoColumn in df.numeric {
      return Err(StrOnNumeric(WojewodztwoColumn));
    }
    var missing := FirstAbsent([num, den], df.cols);
    if missing.Some? {
      return Err(KeyError(missing.value));
    }
    df.Assign(WojewodztwoColumn, Apply(df.Value(), WojewodztwoColumn, LowerStripCell), false);
    df.Assign(name, Apply2(df.Value(), num, den, CoercedRatio), true);
    return Ok(df);
  }

  method WojewodztwaTurnout(df: DataFrame) returns (r: Result<DataFrame>)
    modifies df
    ensures Agrees(r, WojewodztwaTurnoutSpec(old(df.Value())))
    ensures r.Ok? ==> r.value == df
    ensures r.Err? ==> df.Value() == old(df.Value())
  {
    r := WojewodztwaRatioInPlace(df, VotedColumn, EligibleColumn, TurnoutColumn);
  }

  method WojewodztwaShare(df: DataFrame, num: string, den: string, name: string) returns (r: Result<DataFrame>)
    modifies df
    ensures Agrees(r, WojewodztwaShareSpec(old(df.Value()), num, den, name))
    ensures df.Value() == StateAfter(WojewodztwaRatio(old(df.Value()), num, den, name), old(df.Value()))
    ensures r.Ok? ==> fresh(r.value)
  {
    var g := WojewodztwaRatioInPlace(df, num, den, name);
    if g.Err? {
      return Err(g.error);
    }
    r := df.Pick([WojewodztwoColumn, name]);
  }

  method WojewodztwaInvalidShare(df: DataFrame) returns (r: Result<DataFrame>)
    modifies df
    ensures Agrees(r, WojewodztwaShareSpec(old(df.Value()), InvalidVotesColumn, ValidVotesColumn, InvalidShareColumn))
    ensures df.Value() == StateAfter(WojewodztwaRatio(old(df.Value()), InvalidVotesColumn, ValidVotesColumn, InvalidShareColumn), old(df.Value()))
    ensures r.Ok? ==> fresh(r.value)
  {
    r := WojewodztwaShare(df, InvalidVotesColumn, ValidVotesColumn, InvalidShareColumn);
  }

  method WojewodztwaTrzaskowskiShare(df: DataFrame) returns (r: Result<DataFrame>)
    modifies df
    ensures Agrees(r, WojewodztwaShareSpec(old(df.Value()), TrzaskowskiColumn, ValidVotesColumn, TrzaskowskiShareColumn))
    ensures df.Value() == StateAfter(WojewodztwaRatio(old(df.Value()), TrzaskowskiColumn, ValidVotesColumn, TrzaskowskiShareColumn), old(df.Value()))
    ensures r.Ok? ==> fresh(r.value)
  {
    r := WojewodztwaShare(df, TrzaskowskiColumn, ValidVotesColumn, TrzaskowskiShareColumn);
  }

  /**
    * The voivodeship data key is a normal form: trimmed, and trimming and
    * lower-casing it again changes nothing.
    */
  lemma WojewodztwoKeySettles(c: Cell)
    ensures LowerStripCell(LowerStripCell(c)) == LowerStripCell(c)
  {
    if c.Str? {
      LowerStripSettles(c.s);
    }
  }

  /**
    * A voivodeship boundary whose name cell is `b` meets a data row named `d`
    * exactly when the name's text is `d` trimmed and lower-cased. The
    * boundary side is not normalised, so a boundary name holding a capital
    * letter meets no data row at all.
    */
  lemma WojewodztwoKeysMeet(b: Cell, d: string)
    ensures Str(CellText(b)) == LowerStripCell(Str(d)) <==> CellText(b) == Lower(Strip(d))
    ensures (exists i :: 0 <= i < |CellText(b)| && IsUpper(CellText(b)[i])) ==> Str(CellText(b)) != LowerStripCell(Str(d))
  {
    var k := Lower(Strip(d));
    if CellText(b) == k {
      forall i | 0 <= i < |k| ensures !IsUpper(k[i]) {
        assert k[i] == LowerChar(Strip(d)[i]);
      }
    }
  }

  /**
    * Every row of a voivodeship share table carries the normalised name and
    * the ratio of the row's own two columns.
    */
  lemma WojewodztwaShareRows(f: Frame, num: string, den: string, name: string)
    requires WojewodztwaShareSpec(f, num, den, name).Ok?
    requires name != WojewodztwoColumn
    ensures var out := WojewodztwaShareSpec(f, num, den, name).value;
            out.cols == [WojewodztwoColumn, name] && |out.rows| == |f.rows| &&
            forall i :: 0 <= i < |f.rows| ==>
              At(out.rows[i], WojewodztwoColumn) == LowerStripCell(At(f.rows[i], WojewodztwoColumn)) &&
              (num != WojewodztwoColumn && den != WojewodztwoColumn ==>
                 At(out.rows[i], name) == CoercedRatio(At(f.rows[i], num), At(f.rows[i], den)))
  {
  }

  // ---------------------------------------------------------------------------
  // The whole country (Polska)
  // ---------------------------------------------------------------------------

  /** The national table: one row with key "0" and the value. */
  function NationalFrame(name: string, v: Cell): Frame
    requires IsNumericCell(v)
  {
    Frame([BoundaryCodeColumn, name], {name}, [map[BoundaryCodeColumn := Str(NationalKey), name := v]])
  }

  /** The two column conversions the national handlers do first, `first` before `second`. */
  function ToNumericColumns(f: Frame, first: string, second: string): (r: Frame)
    ensures r.cols == AddCol(AddCol(f.cols, first), second) && |r.rows| == |f.rows|
    ensures forall n, i :: n in {first, second} && 0 <= i < |f.rows| ==>
              At(r.rows[i], n) == ToNumericCell(At(f.rows[i], n))
    ensures forall c, i :: c != first && c != second && 0 <= i < |f.rows| ==> At(r.rows[i], c) == At(f.rows[i], c)
  {
    var g := WithColumn(f, first, Apply(f, first, ToNumericCell), true);
    WithColumn(g, second, Apply(g, second, ToNumericCell), true)
  }

  /**
    * A national handler: after converting `order` (its two columns, in the
    * order it converts them), the ratio of the column totals.
    */
  function PolskaSpec(f: Frame, num: string, den: string, name: string, order: seq<string>): (r: Result<(Frame, Frame)>)
    requires order == [num, den] || order == [den, num]
    ensures r.Ok? <==> num in f.cols && den in f.cols
  {
    match FirstAbsent(order, f.cols)
    case Some(n) => Err(KeyError(n))
    case None =>
      var g := ToNumericColumns(f, order[0], order[1]);
      Ok((g, NationalFrame(name, RatioCell(Num(SumCol(g.rows, num)), Num(SumCol(g.rows, den))))))
  }

  /** The national handlers convert their columns of `df` in place and return a new one-row table. */
  method Polska(df: DataFrame, num: string, den: string, name: string, order: seq<string>) returns (r: Result<DataFrame>)
    requires order == [num, den] || order == [den, num]
    modifies df
    ensures var s := PolskaSpec(old(df.Value()), num, den, name, order);
            (r.Ok? <==> s.Ok?) &&
            (r.Ok? ==> fresh(r.value) && df.Value() == s.value.0 && r.value.Value() == s.value.1) &&
            (r.Err? ==> r.error == s.error && df.Value() == old(df.Value()))
  {
    var missing := FirstAbsent(order, df.cols);
    if missing.Some? {
      return Err(KeyError(missing.value));
    }
    ghost var f := df.Value();
    df.Assign(order[0], Apply(df.Value(), order[0], ToNumericCell), true);
    df.Assign(order[1], Apply(df.Value(), order[1], ToNumericCell), true);
    var total := RatioCell(Num(SumCol(df.rows, num)), Num(SumCol(df.rows, den)));
    var out := new DataFrame(NationalFrame(name, total));
    return Ok(out);
  }

  /** `handler_polska_turnout` converts the eligible column first, then the voted one. */
  method PolskaTurnout(df: DataFrame) returns (r: Result<DataFrame>)
    modifies df
    ensures var s := PolskaSpec(old(df.Value()), VotedColumn, EligibleColumn, TurnoutColumn, [EligibleColumn, VotedColumn]);
            (r.Ok? <==> s.Ok?) &&
            (r.Ok? ==> fresh(r.value) && df.Value() == s.value.0 && r.value.Value() == s.value.1) &&
            (r.Err? ==> r.error == s.error && df.Value() == old(df.Value()))
  {
    r := Polska(df, VotedColumn, EligibleColumn, TurnoutColumn, [EligibleColumn, VotedColumn]);
  }

  /** `handler_polska_share` converts the numerator first, then the denominator. */
  method PolskaShare(df: DataFrame, num: string, den: string, name: string) returns (r: Result<DataFrame>)
    modifies df
    ensures var s := PolskaSpec(old(df.Value()), num, den, name, [num, den]);
            (r.Ok? <==> s.Ok?) &&
            (r.Ok? ==> fresh(r.value) && df.Value() == s.value.0 && r.value.Value() == s.value.1) &&
            (r.Err? ==> r.error == s.error && df.Value() == old(df.Value()))
  {
    r := Polska(df, num, den, name, [num, den]);
  }

  method PolskaInvalidShare(df: DataFrame) returns (r: Result<DataFrame>)
    modifies df
    ensures var s := PolskaSpec(old(df.Value()), InvalidVotesColumn, ValidVotesColumn, InvalidShareColumn,
                                [InvalidVotesColumn, ValidVotesColumn]);
            (r.Ok? <==> s.Ok?) &&
            (r.Ok? ==> fresh(r.value) && df.Value() == s.value.0 && r.value.Value() == s.value.1) &&
            (r.Err? ==> r.error == s.error && df.Value() == old(df.Value()))
  {
    r := PolskaShare(df, InvalidVotesColumn, ValidVotesColumn, InvalidShareColumn);
  }

  method PolskaTrzaskowskiShare(df: DataFrame) returns (r: Result<DataFrame>)
    modifies df
    ensures var s := PolskaSpec(old(df.Value()), TrzaskowskiColumn, ValidVotesColumn, TrzaskowskiShareColumn,
                                [TrzaskowskiColumn, ValidVotesColumn]);
            (r.Ok? <==> s.Ok?) &&
            (r.Ok? ==> fresh(r.value) && df.Value() == s.value.0 && r.value.Value() == s.value.1) &&
            (r.Err? ==> r.error == s.error && df.Value() == old(df.Value()))
  {
    r := PolskaShare(df, TrzaskowskiColumn, ValidVotesColumn, TrzaskowskiShareColumn);
  }

  /** The total of a column after numeric conversion: every cell coerced, NaN skipped. */
  function CoercedTotal(rows: seq<Row>, c: string): real {
    if rows == [] then 0.0 else CellAmount(ToNumericCell(At(rows[0], c))) + CoercedTotal(rows[1..], c)
  }

  lemma {:induction false} SumOfConverted(a: seq<Row>, b: seq<Row>, c: string)
    requires |a| == |b| && forall i :: 0 <= i < |a| ==> At(b[i], c) == ToNumericCell(At(a[i], c))
    ensures SumCol(b, c) == CoercedTotal(a, c)
    decreases |a|
  {
    if a != [] {
      SumOfConverted(a[1..], b[1..], c);
    }
  }

  /**
    * The national level is one row, keyed "0", whose value is the ratio of
    * the two column totals (a ratio of sums, not a mean of regional ratios);
    * missing when the denominator total is zero.
    */
  lemma PolskaIsRatioOfTotals(f: Frame, num: string, den: string, name: string, order: seq<string>)
    requires order == [num, den] || order == [den, num]
    requires num in f.cols && den in f.cols && name != BoundaryCodeColumn
    ensures var out := PolskaSpec(f, num, den, name, order).value.1;
            out.cols == [BoundaryCodeColumn, name] && |out.rows| == 1 &&
            At(out.rows[0], BoundaryCodeColumn) == Str(NationalKey) &&
            At(out.rows[0], name) == RatioCell(Num(CoercedTotal(f.rows, num)), Num(CoercedTotal(f.rows, den)))
  {
    var g := ToNumericColumns(f, order[0], order[1]);
    SumOfConverted(f.rows, g.rows, num);
    SumOfConverted(f.rows, g.rows, den);
  }
}
