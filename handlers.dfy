/**
  * The callbacks a level configuration names: the data handlers of the
  * first-round configurations (current and legacy copy) and of the two
  * share-change configurations, and the two boundary preprocessors. A
  * handler is called with the loaded frame and returns the table to plot;
  * the share-change handlers also read the second round's table, which is
  * passed in here as `second` (every other handler ignores it).
  */
module Handlers {
  import opened Frames
  import opened Utilities
  import FirstRound
  import LegacyFirstRound
  import ShareDiff2020
  import ShareDiff2025

  datatype Handler =
    | GminyTurnout | GminyInvalid | GminyInvalidShare | GminyTrzaskowskiShare
    | PowiatyTurnout | PowiatyInvalidShare | PowiatyTrzaskowskiShare
    | WojewodztwaTurnout | WojewodztwaInvalidShare | WojewodztwaTrzaskowskiShare
    | PolskaTurnout | PolskaInvalidShare | PolskaTrzaskowskiShare
    | LegacyGminyTurnout | LegacyGminyInvalid | LegacyGminyInvalidShare | LegacyGminyTrzaskowskiShare
    | TrzaskowskiChange2020 | TrzaskowskiChange2025

  /** `preprocess_gminy_geo` (the utilities' and the legacy copy's, the same code) and `preprocess_wojewodztwa_geo`. */
  datatype Preprocessor = GminyGeo | WojewodztwaGeo

  /** The column a handler's table is keyed on. */
  function KeyColumn(h: Handler): string {
    match h
    case GminyTurnout | GminyInvalid | GminyInvalidShare | GminyTrzaskowskiShare
       | LegacyGminyTurnout | LegacyGminyInvalid | LegacyGminyInvalidShare | LegacyGminyTrzaskowskiShare
       | TrzaskowskiChange2020 | TrzaskowskiChange2025 => GminaCodeColumn
    case PowiatyTurnout | PowiatyInvalidShare | PowiatyTrzaskowskiShare => FirstRound.PowiatKeyColumn
    case WojewodztwaTurnout | WojewodztwaInvalidShare | WojewodztwaTrzaskowskiShare => WojewodztwoColumn
    case PolskaTurnout | PolskaInvalidShare | PolskaTrzaskowskiShare => BoundaryCodeColumn
  }

  /** The column holding the value a handler computes or selects. */
  function ValueColumn(h: Handler): string {
    match h
    case GminyTurnout | LegacyGminyTurnout | PowiatyTurnout | WojewodztwaTurnout | PolskaTurnout =>
      FirstRound.TurnoutColumn
    case GminyInvalid | LegacyGminyInvalid => FirstRound.InvalidVotesColumn
    case GminyInvalidShare | LegacyGminyInvalidShare | PowiatyInvalidShare | WojewodztwaInvalidShare
       | PolskaInvalidShare => FirstRound.InvalidShareColumn
    case GminyTrzaskowskiShare | LegacyGminyTrzaskowskiShare | PowiatyTrzaskowskiShare
       | WojewodztwaTrzaskowskiShare | PolskaTrzaskowskiShare => FirstRound.TrzaskowskiShareColumn
    case TrzaskowskiChange2020 => ShareDiff2020.ChangeColumn
    case TrzaskowskiChange2025 => ShareDiff2025.ChangeColumn
  }

  /** The municipality handlers of the current copy. */
  predicate IsGminy(h: Handler) {
    h.GminyTurnout? || h.GminyInvalid? || h.GminyInvalidShare? || h.GminyTrzaskowskiShare?
  }

  /** The municipality handlers of the legacy copy. */
  predicate IsLegacyGminy(h: Handler) {
    h.LegacyGminyTurnout? || h.LegacyGminyInvalid? || h.LegacyGminyInvalidShare? || h.LegacyGminyTrzaskowskiShare?
  }

  /** The normalisation a municipality handler asks for; a legacy handler asks for what its namesake does. */
  function GminyArgs(h: Handler): NormalizeArgs
    requires IsGminy(h) || IsLegacyGminy(h)
  {
    match h
    case GminyTurnout | LegacyGminyTurnout => FirstRound.GminyTurnoutArgs
    case GminyInvalid | LegacyGminyInvalid => FirstRound.GminyInvalidArgs
    case GminyInvalidShare | LegacyGminyInvalidShare => FirstRound.GminyInvalidShareArgs
    case _ => FirstRound.GminyTrzaskowskiShareArgs
  }

  /** The numerator of a share handler: the invalid votes or the candidate's votes. */
  function ShareNumerator(h: Handler): string {
    if h.PowiatyInvalidShare? || h.WojewodztwaInvalidShare? || h.PolskaInvalidShare? then FirstRound.InvalidVotesColumn
    else FirstRound.TrzaskowskiColumn
  }

  /** A national handler's spec: its numerator, denominator, result name and conversion order. */
  function PolskaOf(h: Handler, f: Frame): Result<(Frame, Frame)>
    requires h.PolskaTurnout? || h.PolskaInvalidShare? || h.PolskaTrzaskowskiShare?
  {
    if h.PolskaTurnout? then
      FirstRound.PolskaSpec(f, FirstRound.VotedColumn, FirstRound.EligibleColumn, FirstRound.TurnoutColumn,
                            [FirstRound.EligibleColumn, FirstRound.VotedColumn])
    else
      var num := ShareNumerator(h);
      FirstRound.PolskaSpec(f, num, FirstRound.ValidVotesColumn, ValueColumn(h), [num, FirstRound.ValidVotesColumn])
  }

  /** What handler `h` returns for the frame `f`. */
  function HandlerResult(h: Handler, f: Frame, second: Frame): Result<Frame> {
    match h
    case GminyTurnout | GminyInvalid | GminyInvalidShare | GminyTrzaskowskiShare => NormalizeGminyDataSpec(f, GminyArgs(h))
    case LegacyGminyTurnout | LegacyGminyInvalid | LegacyGminyInvalidShare | LegacyGminyTrzaskowskiShare =>
      LegacyFirstRound.LegacyNormalizeGminyDataSpec(f, GminyArgs(h))
    case PowiatyTurnout => FirstRound.PowiatyTurnoutSpec(f)
    case PowiatyInvalidShare | PowiatyTrzaskowskiShare =>
      FirstRound.PowiatyShareSpec(f, ShareNumerator(h), FirstRound.ValidVotesColumn, ValueColumn(h))
    case WojewodztwaTurnout => FirstRound.WojewodztwaTurnoutSpec(f)
    case WojewodztwaInvalidShare | WojewodztwaTrzaskowskiShare =>
      FirstRound.WojewodztwaShareSpec(f, ShareNumerator(h), FirstRound.ValidVotesColumn, ValueColumn(h))
    case PolskaTurnout | PolskaInvalidShare | PolskaTrzaskowskiShare =>
      (match PolskaOf(h, f)
       case Err(e) => Err(e)
       case Ok(p) => Ok(p.1))
    case TrzaskowskiChange2020 => ShareDiff2020.HandlerSpec(f, second)
    case TrzaskowskiChange2025 => ShareDiff2025.HandlerSpec(f, second)
  }

  /**
    * What handler `h` leaves of the frame it is given: the municipality
    * handlers work on a copy; the county and voivodeship ones write their
    * columns into it, and the national ones convert their two columns, when
    * they succeed; the share-change ones trim its header names.
    */
  function HandlerEffect(h: Handler, f: Frame): Frame {
    match h
    case PowiatyTurnout => FirstRound.StateAfter(FirstRound.PowiatyTurnoutSpec(f), f)
    case PowiatyInvalidShare | PowiatyTrzaskowskiShare =>
      FirstRound.StateAfter(FirstRound.PowiatyRatio(f, ShareNumerator(h), FirstRound.ValidVotesColumn, ValueColumn(h)), f)
    case WojewodztwaTurnout => FirstRound.StateAfter(FirstRound.WojewodztwaTurnoutSpec(f), f)
    case WojewodztwaInvalidShare | WojewodztwaTrzaskowskiShare =>
      FirstRound.StateAfter(FirstRound.WojewodztwaRatio(f, ShareNumerator(h), FirstRound.ValidVotesColumn, ValueColumn(h)), f)
    case PolskaTurnout | PolskaInvalidShare | PolskaTrzaskowskiShare =>
      (match PolskaOf(h, f)
       case Err(_) => f
       case Ok(p) => p.0)
    case TrzaskowskiChange2020 | TrzaskowskiChange2025 => StripColumnNames(f)
    case _ => f
  }

  /** Calls the handler `h` on `df`. */
  method RunHandler(h: Handler, df: DataFrame, second: Frame) returns (r: Result<DataFrame>)
    modifies df
    ensures Agrees(r, HandlerResult(h, old(df.Value()), second))
    ensures df.Value() == HandlerEffect(h, old(df.Value()))
  {
    if IsGminy(h) || IsLegacyGminy(h) {
      MunicipalDispatch(h, df.Value(), second);
      if IsGminy(h) {
        r := RunGminy(h, df);
      } else {
        r := RunLegacyGminy(h, df);
      }
    } else {
      r := RunInPlace(h, df, second);
    }
  }

  /** Calls a handler other than the municipality ones: each works on `df` itself. */
  method RunInPlace(h: Handler, df: DataFrame, second: Frame) returns (r: Result<DataFrame>)
    requires !IsGminy(h) && !IsLegacyGminy(h)
    modifies df
    ensures Agrees(r, HandlerResult(h, old(df.Value()), second))
    ensures df.Value() == HandlerEffect(h, old(df.Value()))
  {
    match h
    case PowiatyTurnout | PowiatyInvalidShare | PowiatyTrzaskowskiShare => r := RunPowiaty(h, df, second);
    case WojewodztwaTurnout | WojewodztwaInvalidShare | WojewodztwaTrzaskowskiShare => r := RunWojewodztwa(h, df, second);
    case PolskaTurnout | PolskaInvalidShare | PolskaTrzaskowskiShare => r := RunPolska(h, df, second);
    case TrzaskowskiChange2020 => r := ShareDiff2020.Handler(df, second);
    case TrzaskowskiChange2025 => r := ShareDiff2025.Handler(df, second);
  }

  /** Calls a county handler (`second` is not read). */
  method RunPowiaty(h: Handler, df: DataFrame, second: Frame) returns (r: Result<DataFrame>)
    requires h.PowiatyTurnout? || h.PowiatyInvalidShare? || h.PowiatyTrzaskowskiShare?
    modifies df
    ensures Agrees(r, HandlerResult(h, old(df.Value()), second))
    ensures df.Value() == HandlerEffect(h, old(df.Value()))
  {
    match h
    case PowiatyTurnout => r := FirstRound.PowiatyTurnout(df);
    case PowiatyInvalidShare => r := FirstRound.PowiatyInvalidShare(df);
    case PowiatyTrzaskowskiShare => r := FirstRound.PowiatyTrzaskowskiShare(df);
  }

  /** Calls a voivodeship handler (`second` is not read). */
  method RunWojewodztwa(h: Handler, df: DataFrame, second: Frame) returns (r: Result<DataFrame>)
    requires h.WojewodztwaTurnout? || h.WojewodztwaInvalidShare? || h.WojewodztwaTrzaskowskiShare?
    modifies df
    ensures Agrees(r, HandlerResult(h, old(df.Value()), second))
    ensures df.Value() == HandlerEffect(h, old(df.Value()))
  {
    match h
    case WojewodztwaTurnout => r := FirstRound.WojewodztwaTurnout(df);
    case WojewodztwaInvalidShare => r := FirstRound.WojewodztwaInvalidShare(df);
    case WojewodztwaTrzaskowskiShare => r := FirstRound.WojewodztwaTrzaskowskiShare(df);
  }

  /** Calls a national handler (`second` is not read). */
  method RunPolska(h: Handler, df: DataFrame, second: Frame) returns (r: Result<DataFrame>)
    requires h.PolskaTurnout? || h.PolskaInvalidShare? || h.PolskaTrzaskowskiShare?
    modifies df
    ensures Agrees(r, HandlerResult(h, old(df.Value()), second))
    ensures df.Value() == HandlerEffect(h, old(df.Value()))
  {
    match h
    case PolskaTurnout => r := FirstRound.PolskaTurnout(df);
    case PolskaInvalidShare => r := FirstRound.PolskaInvalidShare(df);
    case PolskaTrzaskowskiShare => r := FirstRound.PolskaTrzaskowskiShare(df);
  }

  /** A municipality handler returns its normalisation's result and leaves its frame alone. */
  lemma MunicipalDispatch(h: Handler, f: Frame, second: Frame)
    requires IsGminy(h) || IsLegacyGminy(h)
    ensures IsGminy(h) ==> HandlerResult(h, f, second) == NormalizeGminyDataSpec(f, GminyArgs(h))
    ensures IsLegacyGminy(h) ==> HandlerResult(h, f, second) == LegacyFirstRound.LegacyNormalizeGminyDataSpec(f, GminyArgs(h))
    ensures HandlerEffect(h, f) == f
  {
  }

  /** Calls a municipality handler of the current copy; it works on a copy of `df`. */
  method RunGminy(h: Handler, df: DataFrame) returns (r: Result<DataFrame>)
    requires IsGminy(h)
    ensures Agrees(r, NormalizeGminyDataSpec(df.Value(), GminyArgs(h)))
  {
    match h
    case GminyTurnout => r := FirstRound.GminyTurnout(df);
    case GminyInvalid => r := FirstRound.GminyInvalid(df);
    case GminyInvalidShare => r := FirstRound.GminyInvalidShare(df);
    case GminyTrzaskowskiShare => r := FirstRound.GminyTrzaskowskiShare(df);
  }

  /** Calls a municipality handler of the legacy copy; it works on a copy of `df`. */
  method RunLegacyGminy(h: Handler, df: DataFrame) returns (r: Result<DataFrame>)
    requires IsLegacyGminy(h)
    ensures Agrees(r, LegacyFirstRound.LegacyNormalizeGminyDataSpec(df.Value(), GminyArgs(h)))
  {
    match h
    case LegacyGminyTurnout => r := LegacyFirstRound.GminyTurnout(df);
    case LegacyGminyInvalid => r := LegacyFirstRound.GminyInvalid(df);
    case LegacyGminyInvalidShare => r := LegacyFirstRound.GminyInvalidShare(df);
    case LegacyGminyTrzaskowskiShare => r := LegacyFirstRound.GminyTrzaskowskiShare(df);
  }

  /**
    * A handler that succeeds returns a table holding its key column and its
    * value column, the two a configuration names for the join and the plot.
    */
  lemma HandlerOutputColumns(h: Handler, f: Frame, second: Frame)
    requires HandlerResult(h, f, second).Ok?
    ensures KeyColumn(h) in HandlerResult(h, f, second).value.cols
    ensures ValueColumn(h) in HandlerResult(h, f, second).value.cols
  {
    if IsGminy(h) || IsLegacyGminy(h) {
      MunicipalOutputColumns(h, f, second);
    } else if h.PowiatyTurnout? || h.PowiatyInvalidShare? || h.PowiatyTrzaskowskiShare? {
      PowiatyOutputColumns(h, f, second);
    } else {
      OtherOutputColumns(h, f, second);
    }
  }

  lemma MunicipalOutputColumns(h: Handler, f: Frame, second: Frame)
    requires IsGminy(h) || IsLegacyGminy(h)
    requires HandlerResult(h, f, second).Ok?
    ensures KeyColumn(h) in HandlerResult(h, f, second).value.cols
    ensures ValueColumn(h) in HandlerResult(h, f, second).value.cols
  {
    MunicipalDispatch(h, f, second);
    FirstRound.GminyHandlersShape(f);
    LegacyFirstRound.LegacyGminyHandlersAgree(f);
    assert GminyArgs(h) in {FirstRound.GminyTurnoutArgs, FirstRound.GminyInvalidArgs,
                            FirstRound.GminyInvalidShareArgs, FirstRound.GminyTrzaskowskiShareArgs};
    assert HandlerResult(h, f, second) == NormalizeGminyDataSpec(f, GminyArgs(h));
  }

  lemma PowiatyOutputColumns(h: Handler, f: Frame, second: Frame)
    requires h.PowiatyTurnout? || h.PowiatyInvalidShare? || h.PowiatyTrzaskowskiShare?
    requires HandlerResult(h, f, second).Ok?
    ensures KeyColumn(h) in HandlerResult(h, f, second).value.cols
    ensures ValueColumn(h) in HandlerResult(h, f, second).value.cols
  {
    FirstRound.PowiatyShapes(f, ShareNumerator(h), FirstRound.ValidVotesColumn, ValueColumn(h));
  }

  lemma OtherOutputColumns(h: Handler, f: Frame, second: Frame)
    requires !IsGminy(h) && !IsLegacyGminy(h) && !h.PowiatyTurnout? && !h.PowiatyInvalidShare? && !h.PowiatyTrzaskowskiShare?
    requires HandlerResult(h, f, second).Ok?
    ensures KeyColumn(h) in HandlerResult(h, f, second).value.cols
    ensures ValueColumn(h) in HandlerResult(h, f, second).value.cols
  {
  }

  /** What preprocessor `p` makes of the boundary table. */
  function PreprocessorResult(p: Preprocessor, gdf: Frame): (r: Result<Frame>)
    ensures r.Ok? ==> BoundaryCodeColumn in r.value.cols && |r.value.rows| == |gdf.rows|
  {
    match p
    case GminyGeo => PreprocessGminyGeoSpec(gdf)
    case WojewodztwaGeo => FirstRound.PreprocessWojewodztwaGeoSpec(gdf)
  }

  /** Calls the preprocessor `p` on `gdf`; both rewrite it in place and return it. */
  method RunPreprocessor(p: Preprocessor, gdf: DataFrame) returns (r: Result<DataFrame>)
    modifies gdf
    ensures Agrees(r, PreprocessorResult(p, old(gdf.Value())))
    ensures r.Ok? ==> r.value == gdf
    ensures r.Err? ==> gdf.Value() == old(gdf.Value())
  {
    match p
    case GminyGeo => r := PreprocessGminyGeo(gdf);
    case WojewodztwaGeo => r := FirstRound.PreprocessWojewodztwaGeo(gdf);
  }
}
