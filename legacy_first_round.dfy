/**
  * The older, misspelled copy of the first-round configuration. Its county,
  * voivodeship and national handlers and its boundary preprocessor are the
  * same code as in the current copy and the utilities, and are modelled by
  * those members; what differs is its own `normalize_gminy_data`, which
  * raises where the current one returns the whole cleaned table.
  */
module LegacyFirstRound {
  import opened Wrappers
  import opened Frames
  import opened Utilities
  import FirstRound

  /** A value was asked for: a computed name and function, or a value column. */
  predicate ValueRequested(a: NormalizeArgs) {
    (Truthy(a.computedName) && a.computedFn.Some?) || Truthy(a.valueCol)
  }

  /**
    * Lines 78-84 of the legacy copy: the computed or the value column, and a
    * ValueError when neither is asked for.
    */
  function LegacySelectOutput(h: Frame, a: NormalizeArgs): (r: Result<Frame>)
    ensures !ValueRequested(a) <==> r == Err(NoValueRequested)
    ensures r.Ok? ==> |r.value.cols| == 2 && r.value.cols[0] == a.terytCol
  {
    if Truthy(a.computedName) && a.computedFn.Some? then
      match ComputedColumn(h, a.computedFn.value)
      case Err(e) => Err(e)
      case Ok(cells) => Select(WithColumn(h, a.computedName.value, cells, true), [a.terytCol, a.computedName.value])
    else if Truthy(a.valueCol) then Select(h, [a.terytCol, a.valueCol.value])
    else Err(NoValueRequested)
  }

  /** The legacy `normalize_gminy_data(df, ...)` as a value. */
  function LegacyNormalizeGminyDataSpec(f: Frame, a: NormalizeArgs): Result<Frame> {
    match Cleaned(f, a)
    case Err(e) => Err(e)
    case Ok(h) => LegacySelectOutput(h, a)
  }

  /**
    * The two copies agree whenever a value is asked for; otherwise the legacy
    * copy fails, with ValueError exactly where the current one returns the
    * whole cleaned table (every input column kept).
    */
  lemma LegacyVersusCurrent(f: Frame, a: NormalizeArgs)
    ensures ValueRequested(a) ==> LegacyNormalizeGminyDataSpec(f, a) == NormalizeGminyDataSpec(f, a)
    ensures !ValueRequested(a) ==> LegacyNormalizeGminyDataSpec(f, a).Err?
    ensures !ValueRequested(a) && NormalizeGminyDataSpec(f, a).Ok? ==>
              LegacyNormalizeGminyDataSpec(f, a) == Err(NoValueRequested) &&
              forall c :: c in f.cols ==> c in NormalizeGminyDataSpec(f, a).value.cols
    ensures !ValueRequested(a) && NormalizeGminyDataSpec(f, a).Err? ==>
              LegacyNormalizeGminyDataSpec(f, a) == NormalizeGminyDataSpec(f, a)
  {
    match Cleaned(f, a)
    case Err(e) =>
    case Ok(h) =>
      if !ValueRequested(a) {
        assert SelectOutput(h, a) == Ok(h);
      }
  }

  /**
    * The legacy normalisation works on a copy: the input frame is not
    * touched, and the cleaning is the current copy's.
    */
  method LegacyNormalizeGminyData(df: DataFrame, a: NormalizeArgs) returns (r: Result<DataFrame>)
    ensures Agrees(r, LegacyNormalizeGminyDataSpec(df.Value(), a))
    ensures r.Ok? ==> fresh(r.value)
  {
    LegacyVersusCurrent(df.Value(), a);
    r := NormalizeGminyData(df, a);
    if r.Ok? && !ValueRequested(a) {
      r := Err(NoValueRequested);
    }
  }

  method LegacyNormalizeGminyShare(df: DataFrame, numerator: string, denominator: string, shareName: string, warszawaFix: bool)
    returns (r: Result<DataFrame>)
    ensures Agrees(r, LegacyNormalizeGminyDataSpec(df.Value(), ShareArgs(numerator, denominator, shareName, warszawaFix)))
    ensures r.Ok? ==> fresh(r.value)
  {
    r := LegacyNormalizeGminyData(df, ShareArgs(numerator, denominator, shareName, warszawaFix));
  }

  method GminyTurnout(df: DataFrame) returns (r: Result<DataFrame>)
    ensures Agrees(r, LegacyNormalizeGminyDataSpec(df.Value(), FirstRound.GminyTurnoutArgs))
    ensures r.Ok? ==> fresh(r.value)
  {
    r := LegacyNormalizeGminyData(df, FirstRound.GminyTurnoutArgs);
  }

  method GminyInvalid(df: DataFrame) returns (r: Result<DataFrame>)
    ensures Agrees(r, LegacyNormalizeGminyDataSpec(df.Value(), FirstRound.GminyInvalidArgs))
    ensures r.Ok? ==> fresh(r.value)
  {
    r := LegacyNormalizeGminyData(df, FirstRound.GminyInvalidArgs);
  }

  method GminyInvalidShare(df: DataFrame) returns (r: Result<DataFrame>)
    ensures Agrees(r, LegacyNormalizeGminyDataSpec(df.Value(), FirstRound.GminyInvalidShareArgs))
    ensures r.Ok? ==> fresh(r.value)
  {
    r := LegacyNormalizeGminyShare(df, FirstRound.InvalidVotesColumn, FirstRound.ValidVotesColumn,
                                   FirstRound.InvalidShareColumn, true);
  }

  method GminyTrzaskowskiShare(df: DataFrame) returns (r: Result<DataFrame>)
    ensures Agrees(r, LegacyNormalizeGminyDataSpec(df.Value(), FirstRound.GminyTrzaskowskiShareArgs))
    ensures r.Ok? ==> fresh(r.value)
  {
    r := LegacyNormalizeGminyShare(df, FirstRound.TrzaskowskiColumn, FirstRound.ValidVotesColumn,
                                   FirstRound.TrzaskowskiShareColumn, true);
  }

  /**
    * Every municipality handler of the legacy copy asks for a value, so the
    * missing ValueError path never shows and each gives what the current
    * handler of the same name gives.
    */
  lemma LegacyGminyHandlersAgree(f: Frame)
    ensures forall a :: a in {FirstRound.GminyTurnoutArgs, FirstRound.GminyInvalidArgs,
                              FirstRound.GminyInvalidShareArgs, FirstRound.GminyTrzaskowskiShareArgs} ==>
              ValueRequested(a) && LegacyNormalizeGminyDataSpec(f, a) == NormalizeGminyDataSpec(f, a)
  {
    forall a | a in {FirstRound.GminyTurnoutArgs, FirstRound.GminyInvalidArgs,
                     FirstRound.GminyInvalidShareArgs, FirstRound.GminyTrzaskowskiShareArgs}
      ensures ValueRequested(a) && LegacyNormalizeGminyDataSpec(f, a) == NormalizeGminyDataSpec(f, a)
    {
      LegacyVersusCurrent(f, a);
    }
  }
}
