/**
  * The map plotter: an administrative level and its boundary table, the
  * data loaded for it through a handler, the left join of the two on the
  * TERYT code, and the checks made before drawing. Reading the boundary
  * file and the CSV, reprojecting, and drawing are outside the model: the
  * tables they give are parameters.
  */
module Plotter {
  import opened Wrappers
  import opened Text
  import opened Frames
  import opened Utilities
  import opened Handlers

  /** The administrative levels of Poland, by the value each carries. */
  datatype AdminLevel = Gminy | Powiaty | Wojewodztwa | Polska

  const BaseMapDir := "gis_boundaries"

  /**
    * How one view is drawn at one level: the data file, its code column,
    * the handler, the value column, the title, and the boundary preprocessor.
    */
  datatype LevelConfig = LevelConfig(
    csvPath: Option<string>,
    terytCol: Option<string>,
    handler: Option<Handler>,
    valueCol: Option<string>,
    title: Option<string>,
    preprocessor: Option<Preprocessor>)

  function LevelValue(l: AdminLevel): string {
    match l
    case Gminy => "gminy"
    case Powiaty => "powiaty"
    case Wojewodztwa => "wojewodztwa"
    case Polska => "polska"
  }

  /** The level check: a name is a level exactly when some level carries it; anything else is a ValueError. */
  function ParseLevel(s: string): (r: Result<AdminLevel>)
    ensures r.Ok? ==> LevelValue(r.value) == s
    ensures r.Err? ==> r.error == InvalidLevel(s) && forall l :: LevelValue(l) != s
  {
    if s == "gminy" then Ok(Gminy)
    else if s == "powiaty" then Ok(Powiaty)
    else if s == "wojewodztwa" then Ok(Wojewodztwa)
    else if s == "polska" then Ok(Polska)
    else Err(InvalidLevel(s))
  }

  /** `os.path.join(BASE_MAP_DIR, v, v + ".shp")` for the level's value `v`. */
  function DefaultShapefilePath(l: AdminLevel): string {
    BaseMapDir + "/" + LevelValue(l) + "/" + LevelValue(l) + ".shp"
  }

  /** The path the plotter reads: the one given, else the level's default. */
  function ShapefilePathFor(l: AdminLevel, given: Option<string>): string {
    if given.Some? then given.value else DefaultShapefilePath(l)
  }

  /** The boundary code column the plotter joins on: the one given, else `JPT_KOD_JE`. */
  function ShpColumnFor(given: Option<string>): string {
    if given.Some? then given.value else BoundaryCodeColumn
  }

  /**
    * Every default path lies in the level's own directory under the base
    * directory and names a shapefile, and no two levels share one.
    */
  lemma DefaultPathsDistinct(a: AdminLevel, b: AdminLevel)
    ensures var p := DefaultShapefilePath(a);
            p[..|BaseMapDir| + 1] == BaseMapDir + "/" &&
            p[|BaseMapDir| + 1..|BaseMapDir| + 1 + |LevelValue(a)|] == LevelValue(a) &&
            p[|p| - 4..] == ".shp"
    ensures DefaultShapefilePath(a) == DefaultShapefilePath(b) ==> a == b
  {
    var v := LevelValue(a);
    var p := DefaultShapefilePath(a);
    assert p == (BaseMapDir + "/") + (v + "/" + v + ".shp");
    assert p == (BaseMapDir + "/" + v) + ("/" + v + ".shp");
    assert p == (BaseMapDir + "/" + v + "/" + v) + ".shp";
    if DefaultShapefilePath(a) == DefaultShapefilePath(b) {
      assert |LevelValue(a)| == |LevelValue(b)|;
    }
  }

  // ---------------------------------------------------------------------------
  // Loading: header and cell cleaning before the handler
  // ---------------------------------------------------------------------------

  /** `.str.replace(",", ".").str.strip()` on one cell of a text column; a cell that is not text gives NaN. */
  function CleanCell(c: Cell): Cell {
    if c.Str? then Str(Strip(ReplaceComma(c.s))) else Missing
  }

  /** The strict `pd.to_numeric` accepts the cell: a number, NaN, or text that parses. */
  predicate Parses(c: Cell) {
    match c
    case Str(s) => ParseNumber(s).Some?
    case _ => true
  }

  /** Every cell of column `c`, once cleaned, parses. */
  predicate ColumnParses(f: Frame, c: string) {
    forall i :: 0 <= i < |f.rows| ==> Parses(CleanCell(At(f.rows[i], c)))
  }

  /** One text column after the loader: cleaned, then numeric when the whole column parses. */
  function LoadColumn(f: Frame, c: string): (r: Frame)
    requires c in f.cols
    ensures r.cols == f.cols && |r.rows| == |f.rows|
    ensures forall i :: 0 <= i < |f.rows| ==> At(r.rows[i], c) == LoadedCell(f, c, i)
    ensures forall i, d :: 0 <= i < |f.rows| && d != c ==> At(r.rows[i], d) == At(f.rows[i], d)
    ensures r.numeric == if ColumnParses(f, c) then f.numeric + {c} else f.numeric - {c}
  {
    var g := WithColumn(f, c, Apply(f, c, CleanCell), false);
    if ColumnParses(f, c) then WithColumn(g, c, Apply(g, c, ToNumericCell), true) else g
  }

  /**
    * The loader's pass over `names`: each text column is cleaned and
    * converted; the first numeric column raises on `.str`, which ends the pass.
    */
  function CleanColumns(f: Frame, names: seq<string>): (r: Frame)
    requires forall n :: n in names ==> n in f.cols
    ensures r.cols == f.cols && |r.rows| == |f.rows|
    decreases |names|
  {
    if names == [] || names[0] in f.numeric then f
    else CleanColumns(LoadColumn(f, names[0]), names[1..])
  }

  /** The frame the loader hands to the handler: header names trimmed, then the cleaning pass. */
  function Loaded(data: Frame): Frame {
    var s := StripColumnNames(data);
    CleanColumns(s, s.cols)
  }

  /** How many of `names` come before the first numeric column. */
  function FirstNumeric(f: Frame, names: seq<string>): (k: nat)
    ensures k <= |names|
    ensures forall j :: 0 <= j < k ==> names[j] !in f.numeric
    ensures k < |names| ==> names[k] in f.numeric
  {
    if names == [] || names[0] in f.numeric then 0 else 1 + FirstNumeric(f, names[1..])
  }

  /** A column the pass reached: what the loader leaves in its row `i`. */
  function LoadedCell(f: Frame, c: string, i: nat): Cell
    requires i < |f.rows|
  {
    if ColumnParses(f, c) then ToNumericCell(CleanCell(At(f.rows[i], c))) else CleanCell(At(f.rows[i], c))
  }

  /** Names the pass reaches: those before the first numeric column. */
  function Reached(f: Frame, names: seq<string>): seq<string> {
    names[..FirstNumeric(f, names)]
  }

  /** Two frames with the same cells in column `c` load it alike. */
  lemma SameColumnLoadsAlike(f: Frame, g: Frame, c: string)
    requires |g.rows| == |f.rows|
    requires forall i :: 0 <= i < |f.rows| ==> At(g.rows[i], c) == At(f.rows[i], c)
    ensures ColumnParses(g, c) == ColumnParses(f, c)
    ensures forall i :: 0 <= i < |f.rows| ==> LoadedCell(g, c, i) == LoadedCell(f, c, i)
  {
  }

  /** Loading a column outside `names` leaves the first numeric one among them where it was. */
  lemma LoadColumnKeepsFirstNumeric(f: Frame, c: string, names: seq<string>)
    requires c in f.cols && c !in names
    ensures FirstNumeric(LoadColumn(f, c), names) == FirstNumeric(f, names)
  {
    var g := LoadColumn(f, c);
    assert forall n :: n in names ==> (n in g.numeric <==> n in f.numeric);
    FirstNumericSame(f, g, names);
  }

  /** The head of a list of distinct names does not occur in its tail. */
  lemma HeadNotInTail(names: seq<string>)
    requires names != []
    requires forall a, b :: 0 <= a < b < |names| ==> names[a] != names[b]
    ensures names[0] !in names[1..]
  {
    forall j | 0 <= j < |names| - 1
      ensures names[1..][j] != names[0]
    {
      assert names[1..][j] == names[j + 1];
    }
  }

  /** One step of the pass: the rest of the pass reaches the same names in the loaded frame. */
  lemma ReachedStep(f: Frame, names: seq<string>)
    requires names != [] && names[0] !in f.numeric && names[0] in f.cols
    requires forall a, b :: 0 <= a < b < |names| ==> names[a] != names[b]
    ensures Reached(f, names) == [names[0]] + Reached(LoadColumn(f, names[0]), names[1..])
    ensures names[0] !in names[1..]
  {
    HeadNotInTail(names);
    ReachedCons(f, names);
    LoadColumnKeepsFirstNumeric(f, names[0], names[1..]);
  }

  /** The pass reaches only names from the list. */
  lemma ReachedWithin(f: Frame, names: seq<string>)
    ensures forall c :: c in Reached(f, names) ==> c in names
  {
    var k := FirstNumeric(f, names);
    forall c | c in names[..k]
      ensures c in names
    {
      var j :| 0 <= j < k && names[..k][j] == c;
      assert names[j] == c;
    }
  }

  /** A text column at the head of `names` is reached, followed by what the rest reaches. */
  lemma ReachedCons(f: Frame, names: seq<string>)
    requires names != [] && names[0] !in f.numeric
    ensures Reached(f, names) == [names[0]] + Reached(f, names[1..])
  {
    var k := FirstNumeric(f, names[1..]);
    assert names[..1 + k] == [names[0]] + names[1..][..k];
  }

  /**
    * The cells after the pass over distinct column names: each column it
    * reaches is cleaned, and converted when all its cells parse; the first
    * numeric column and every one after it are left as they were.
    */
  lemma {:induction false} CleanColumnsCells(f: Frame, names: seq<string>)
    requires forall n :: n in names ==> n in f.cols
    requires forall a, b :: 0 <= a < b < |names| ==> names[a] != names[b]
    ensures var r := CleanColumns(f, names);
            (forall i, c :: 0 <= i < |f.rows| && c in Reached(f, names) ==> At(r.rows[i], c) == LoadedCell(f, c, i)) &&
            (forall i, c :: 0 <= i < |f.rows| && c !in Reached(f, names) ==> At(r.rows[i], c) == At(f.rows[i], c))
    decreases |names|
  {
    if names != [] && names[0] !in f.numeric {
      var c0, rest := names[0], names[1..];
      var g := LoadColumn(f, c0);
      ReachedStep(f, names);
      ReachedWithin(g, rest);
      CleanColumnsCells(g, rest);
      var r := CleanColumns(g, rest);
      forall i, c | 0 <= i < |f.rows| && c in Reached(f, names)
        ensures At(r.rows[i], c) == LoadedCell(f, c, i)
      {
        if c != c0 {
          SameColumnLoadsAlike(f, g, c);
        }
      }
    }
  }

  /** The dtypes after the pass: a reached column is numeric exactly when all its cells parse; others keep theirs. */
  lemma {:induction false} CleanColumnsNumeric(f: Frame, names: seq<string>)
    requires forall n :: n in names ==> n in f.cols
    requires forall a, b :: 0 <= a < b < |names| ==> names[a] != names[b]
    ensures var r := CleanColumns(f, names);
            (forall c :: c in Reached(f, names) ==> (c in r.numeric <==> ColumnParses(f, c))) &&
            (forall c :: c !in Reached(f, names) ==> (c in r.numeric <==> c in f.numeric))
    decreases |names|
  {
    if names != [] && names[0] !in f.numeric {
      var c0 := names[0];
      var g := LoadColumn(f, c0);
      ReachedStep(f, names);
      CleanColumnsNumeric(g, names[1..]);
      forall c | c in Reached(g, names[1..])
        ensures ColumnParses(g, c) == ColumnParses(f, c)
      {
        SameColumnLoadsAlike(f, g, c);
      }
    }
  }

  /**
    * What the loader hands to the handler: the header names trimmed (so
    * distinct), every column up to the first numeric one cleaned and
    * converted where it parses, and the rest as given.
    */
  lemma LoadedFrameCells(data: Frame)
    ensures var s := StripColumnNames(data);
            var r := Loaded(data);
            r.cols == s.cols && |r.rows| == |data.rows| &&
            (forall i, c :: 0 <= i < |s.rows| && c in Reached(s, s.cols) ==> At(r.rows[i], c) == LoadedCell(s, c, i)) &&
            (forall i, c :: 0 <= i < |s.rows| && c !in Reached(s, s.cols) ==> At(r.rows[i], c) == At(s.rows[i], c)) &&
            (forall c :: c in Reached(s, s.cols) ==> (c in r.numeric <==> ColumnParses(s, c)))
  {
    var s := StripColumnNames(data);
    CleanColumnsCells(s, s.cols);
    CleanColumnsNumeric(s, s.cols);
  }

  /** One step of the pass keeps the dtype flags honest: a column flagged numeric holds only numbers and NaN. */
  lemma LoadColumnValid(f: Frame, c: string)
    requires c in f.cols && Valid(f)
    ensures Valid(LoadColumn(f, c))
  {
    var g := WithColumn(f, c, Apply(f, c, CleanCell), false);
    assert Valid(g);
    if ColumnParses(f, c) {
      var cells := Apply(g, c, ToNumericCell);
      assert forall i :: 0 <= i < |cells| ==> IsNumericCell(cells[i]);
    }
  }

  /** The whole pass keeps the dtype flags honest. */
  lemma {:induction false} CleanColumnsValid(f: Frame, names: seq<string>)
    requires forall n :: n in names ==> n in f.cols
    requires Valid(f)
    ensures Valid(CleanColumns(f, names))
    decreases |names|
  {
    if names != [] && names[0] !in f.numeric {
      var g := LoadColumn(f, names[0]);
      LoadColumnValid(f, names[0]);
      assert forall n :: n in names[1..] ==> n in g.cols;
      CleanColumnsValid(g, names[1..]);
    }
  }

  /**
    * The frame the loader hands to the handler has honest dtype flags when the
    * frame it was given has: trimming the names and the cleaning pass both keep them.
    */
  lemma LoadedValid(data: Frame)
    requires Valid(data)
    ensures Valid(Loaded(data))
  {
    RenameColumnsValid(data, StrippedNames(data.cols));
    var s := StripColumnNames(data);
    CleanColumnsValid(s, s.cols);
  }

  /** The first numeric column is found alike in two frames that agree on which of `names` are numeric. */
  lemma {:induction false} FirstNumericSame(f: Frame, g: Frame, names: seq<string>)
    requires forall n :: n in names ==> (n in g.numeric <==> n in f.numeric)
    ensures FirstNumeric(g, names) == FirstNumeric(f, names)
    decreases |names|
  {
    if names != [] {
      FirstNumericSame(f, g, names[1..]);
    }
  }

  /**
    * A text cell the loader converts ends as `to_num` would make it: the
    * loader's comma and trim step is the one `to_num` takes.
    */
  lemma LoadedTextIsToNum(f: Frame, c: string, i: nat)
    requires i < |f.rows| && ColumnParses(f, c) && At(f.rows[i], c).Str?
    ensures LoadedCell(f, c, i) == ToNumCell(At(f.rows[i], c))
    ensures LoadedCell(f, c, i).Num?
  {
    assert Parses(CleanCell(At(f.rows[i], c)));
  }

  /** One pass of the loader's loop: clean column `c` of `df`, then convert it if every cell parses. */
  method LoadColumnInPlace(df: DataFrame, c: string)
    requires c in df.cols
    modifies df
    ensures df.Value() == LoadColumn(old(df.Value()), c)
  {
    df.Assign(c, Apply(df.Value(), c, CleanCell), false);
    if forall k | 0 <= k < |df.rows| :: Parses(At(df.rows[k], c)) {
      df.Assign(c, Apply(df.Value(), c, ToNumericCell), true);
    }
  }

  /**
    * The loader's loop over the columns of `df`; `.str` on a numeric column
    * raises, and the exception ends the loop where it stands.
    */
  method CleanAll(df: DataFrame)
    modifies df
    ensures df.Value() == CleanColumns(old(df.Value()), old(df.cols))
  {
    ghost var start := df.Value();
    var names := df.cols;
    var i := 0;
    while i < |names|
      invariant 0 <= i <= |names|
      invariant df.cols == names
      invariant CleanColumns(df.Value(), names[i..]) == CleanColumns(start, names)
      decreases |names| - i
    {
      var c := names[i];
      if c in df.numeric {
        break;
      }
      LoadColumnInPlace(df, c);
      assert names[i..][1..] == names[i + 1..];
      i := i + 1;
    }
  }

  /** `load_data` up to the handler's result: a copy of `data`, cleaned, then handled. */
  method LoadFrame(data: Frame, handler: Handler, second: Frame) returns (r: Result<Frame>)
    ensures r == HandlerResult(handler, Loaded(data), second)
  {
    var frame := new DataFrame(data);
    frame.SetColumnNames(StrippedNames(frame.cols));
    CleanAll(frame);
    var out := RunHandler(handler, frame, second);
    if out.Err? {
      return Err(out.error);
    }
    return Ok(out.value.Value());
  }

  // ---------------------------------------------------------------------------
  // Merging and the plot checks
  // ---------------------------------------------------------------------------

  /** `merged[value_col].isna()` counted. */
  function MissingCount(rows: seq<Row>, v: string): (n: nat)
    ensures n <= |rows|
    ensures n == 0 <==> forall i :: 0 <= i < |rows| ==> !At(rows[i], v).Missing?
  {
    if rows == [] then 0
    else MissingCount(rows[..|rows| - 1], v) + (if At(rows[|rows| - 1], v).Missing? then 1 else 0)
  }

  /** The checks after the join: the value column must be there, and no row may lack a value. */
  function MergeOutcome(m: Frame, v: string): (r: Result<()>)
    ensures r.Ok? <==> v in m.cols && forall i :: 0 <= i < |m.rows| ==> !At(m.rows[i], v).Missing?
    ensures r.Err? && v in m.cols ==> r.error == UnmatchedRegions(MissingCount(m.rows, v)) && MissingCount(m.rows, v) > 0
  {
    if v !in m.cols then Err(NotFoundAfterMerge(v))
    else if MissingCount(m.rows, v) > 0 then Err(UnmatchedRegions(MissingCount(m.rows, v)))
    else Ok(())
  }

  /** A boundary row finds a data row with its code and a value there. */
  predicate Matched(g: Row, data: Frame, shpCol: string, dataCol: string, v: string) {
    exists j :: 0 <= j < |data.rows| && At(data.rows[j], dataCol) == At(g, shpCol) && !At(data.rows[j], v).Missing?
  }

  /** The number of boundary rows that are not matched. */
  function UnmatchedCount(rows: seq<Row>, data: Frame, shpCol: string, dataCol: string, v: string): (n: nat)
    ensures n <= |rows|
  {
    if rows == [] then 0
    else UnmatchedCount(rows[..|rows| - 1], data, shpCol, dataCol, v) +
         (if Matched(rows[|rows| - 1], data, shpCol, dataCol, v) then 0 else 1)
  }

  /** On unique data keys, a joined value is present exactly when the region is matched. */
  lemma JoinedCellMatched(g: Row, data: Frame, shpCol: string, dataCol: string, v: string)
    requires UniqueKey(data.rows, dataCol)
    ensures !JoinedCell(g, data.rows, shpCol, dataCol, v).Missing? <==> Matched(g, data, shpCol, dataCol, v)
  {
    match Lookup(data.rows, dataCol, At(g, shpCol))
    case None =>
    case Some(d) =>
      var k :| 0 <= k < |data.rows| && data.rows[k] == d;
      if Matched(g, data, shpCol, dataCol, v) {
        var j :| 0 <= j < |data.rows| && At(data.rows[j], dataCol) == At(g, shpCol) && !At(data.rows[j], v).Missing?;
        assert j == k;
      } else {
        assert !(At(data.rows[k], dataCol) == At(g, shpCol) && !At(data.rows[k], v).Missing?);
      }
  }

  /** Counting missing joined values counts unmatched regions. */
  lemma {:induction false} CountsAgree(m: seq<Row>, gs: seq<Row>, data: Frame, shpCol: string, dataCol: string, v: string)
    requires |m| == |gs|
    requires forall i :: 0 <= i < |m| ==> (At(m[i], v).Missing? <==> !Matched(gs[i], data, shpCol, dataCol, v))
    ensures MissingCount(m, v) == UnmatchedCount(gs, data, shpCol, dataCol, v)
    decreases |m|
  {
    if m != [] {
      CountsAgree(m[..|m| - 1], gs[..|gs| - 1], data, shpCol, dataCol, v);
    }
  }

  /**
    * The merge on unique data codes whose column has the dtype kind of the
    * boundary codes (numeric or text): every boundary row is kept, and the
    * merge fails exactly when some region finds no data row with its code
    * and a value, with the number of such regions in the error.
    */
  lemma MergeFindsRegions(gdf: Frame, data: Frame, shpCol: string, dataCol: string, v: string)
    requires shpCol in gdf.cols && dataCol in data.cols && !KeyTypesClash(gdf, data, shpCol, dataCol)
    requires UniqueKey(data.rows, dataCol)
    requires v in data.cols && v !in gdf.cols && Plain(v)
    ensures LeftJoin(gdf, data, shpCol, dataCol).Ok?
    ensures var m := LeftJoin(gdf, data, shpCol, dataCol).value;
            |m.rows| == |gdf.rows| &&
            (MergeOutcome(m, v).Ok? <==> forall i :: 0 <= i < |gdf.rows| ==> Matched(gdf.rows[i], data, shpCol, dataCol, v)) &&
            (MergeOutcome(m, v).Err? ==>
               MergeOutcome(m, v) == Err(UnmatchedRegions(UnmatchedCount(gdf.rows, data, shpCol, dataCol, v))))
  {
    LeftJoinValues(gdf, data, shpCol, dataCol, v);
    var m := LeftJoin(gdf, data, shpCol, dataCol).value;
    forall i | 0 <= i < |gdf.rows|
      ensures At(m.rows[i], v).Missing? <==> !Matched(gdf.rows[i], data, shpCol, dataCol, v)
    {
      JoinedCellMatched(gdf.rows[i], data, shpCol, dataCol, v);
    }
    CountsAgree(m.rows, gdf.rows, data, shpCol, dataCol, v);
  }

  /**
    * A plotter for one level: the boundary table (`gdf`), the loaded data
    * and its code column once `LoadData` succeeds, and the joined table once
    * `Merge` or `Plot` sets it.
    */
  class TerytMapPlotter {
    var level: AdminLevel
    var shapefilePath: string
    var terytShpCol: string
    var gdf: Frame
    var df: Option<Frame>
    var terytDataCol: Option<string>
    var merged: Option<Frame>

    /**
      * `boundaries` is the table read from the resulting shapefile path and
      * reprojected to WGS 84. A path or code column left out takes its
      * default.
      */
    constructor (level: AdminLevel, shapefilePath: Option<string>, terytShpCol: Option<string>, boundaries: Frame)
      ensures this.level == level && this.shapefilePath == ShapefilePathFor(level, shapefilePath)
      ensures this.terytShpCol == ShpColumnFor(terytShpCol) && gdf == boundaries
      ensures terytShpCol.None? ==> this.terytShpCol == "JPT_KOD_JE"
      ensures df == None && terytDataCol == None && merged == None
    {
      this.level := level;
      this.shapefilePath := ShapefilePathFor(level, shapefilePath);
      this.terytShpCol := ShpColumnFor(terytShpCol);
      gdf := boundaries;
      df := None;
      terytDataCol := None;
      merged := None;
    }

    /** Replaces the boundary table by what the preprocessor makes of it; on error nothing changes. */
    method ApplyPreprocessor(p: Preprocessor) returns (r: Result<()>)
      modifies this
      ensures r.Ok? <==> PreprocessorResult(p, old(gdf)).Ok?
      ensures r.Err? ==> r.error == PreprocessorResult(p, old(gdf)).error && gdf == old(gdf)
      ensures r.Ok? ==> gdf == PreprocessorResult(p, old(gdf)).value
      ensures level == old(level) && shapefilePath == old(shapefilePath) && terytShpCol == old(terytShpCol)
      ensures df == old(df) && terytDataCol == old(terytDataCol) && merged == old(merged)
    {
      var g := new DataFrame(gdf);
      var out := RunPreprocessor(p, g);
      if out.Err? {
        return Err(out.error);
      }
      gdf := out.value.Value();
      return Ok(());
    }

    /**
      * Loads `data` (the CSV's rows, read as text, or a frame given
      * directly) through `handler`; `second` is the second-round table the
      * share-change handlers read. On a handler error nothing changes.
      */
    method LoadData(data: Frame, terytCol: string, handler: Handler, second: Frame) returns (r: Result<()>)
      modifies this
      ensures var s := HandlerResult(handler, Loaded(data), second);
              (r.Ok? <==> s.Ok?) &&
              (r.Ok? ==> df == Some(s.value) && terytDataCol == Some(terytCol)) &&
              (r.Err? ==> r.error == s.error && df == old(df) && terytDataCol == old(terytDataCol))
      ensures level == old(level) && shapefilePath == old(shapefilePath) && terytShpCol == old(terytShpCol)
      ensures gdf == old(gdf) && merged == old(merged)
    {
      var out := LoadFrame(data, handler, second);
      r := Keep(out, terytCol);
    }

    /** Keeps a loaded table and its code column; on an error nothing changes. */
    method Keep(out: Result<Frame>, terytCol: string) returns (r: Result<()>)
      modifies this
      ensures r.Ok? <==> out.Ok?
      ensures r.Ok? ==> df == Some(out.value) && terytDataCol == Some(terytCol)
      ensures r.Err? ==> r.error == out.error && df == old(df) && terytDataCol == old(terytDataCol)
      ensures level == old(level) && shapefilePath == old(shapefilePath) && terytShpCol == old(terytShpCol)
      ensures gdf == old(gdf) && merged == old(merged)
    {
      if out.Err? {
        return Err(out.error);
      }
      df := Some(out.value);
      terytDataCol := Some(terytCol);
      return Ok(());
    }

    /**
      * Left-joins the boundaries with the loaded data on the two code
      * columns and keeps the result, then checks the value column: absent,
      * or missing in any row, is an error (the joined table is kept anyway).
      */
    method Merge(v: string) returns (r: Result<()>)
      modifies this
      ensures old(df).None? || old(terytDataCol).None? ==> r == Err(DataNotLoaded) && merged == old(merged)
      ensures old(df).Some? && old(terytDataCol).Some? ==>
                var j := LeftJoin(old(gdf), old(df).value, old(terytShpCol), old(terytDataCol).value);
                (j.Err? ==> r == Err(j.error) && merged == old(merged)) &&
                (j.Ok? ==> merged == Some(j.value) && r == MergeOutcome(j.value, v))
      ensures level == old(level) && shapefilePath == old(shapefilePath) && terytShpCol == old(terytShpCol)
      ensures gdf == old(gdf) && df == old(df) && terytDataCol == old(terytDataCol)
    {
      if df.None? || terytDataCol.None? {
        return Err(DataNotLoaded);
      }
      var j := LeftJoin(gdf, df.value, terytShpCol, terytDataCol.value);
      if j.Err? {
        return Err(j.error);
      }
      merged := Some(j.value);
      if v !in j.value.cols {
        return Err(NotFoundAfterMerge(v));
      }
      var missing := MissingCount(j.value.rows, v);
      if missing > 0 {
        return Err(UnmatchedRegions(missing));
      }
      return Ok(());
    }

    /**
      * The checks before drawing: without a joined table the boundaries
      * are used as it; a value column asked for must be one of its columns.
      */
    method Plot(v: Option<string>) returns (r: Result<()>)
      modifies this
      ensures merged == if old(merged).Some? then old(merged) else Some(old(gdf))
      ensures r.Err? <==> Truthy(v) && v.value !in merged.value.cols
      ensures r.Err? ==> r.error == MissingPlotColumn(v.value)
      ensures level == old(level) && shapefilePath == old(shapefilePath) && terytShpCol == old(terytShpCol)
      ensures gdf == old(gdf) && df == old(df) && terytDataCol == old(terytDataCol)
    {
      if merged.None? {
        merged := Some(gdf);
      }
      if Truthy(v) && v.value !in merged.value.cols {
        return Err(MissingPlotColumn(v.value));
      }
      return Ok(());
    }
  }
}
