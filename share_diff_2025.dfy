/**
  * The 2025 "change in Trzaskowski support" view: per municipality, his
  * share of the valid votes in the second round minus that in the first.
  */
module ShareDiff2025 {
  import opened Frames
  import opened Utilities
  import opened ShareDiff
  import FirstRound

  const DataDir := "data/poland/presidential_results_2025"
  const ViewName := "Poland: 2025 Presidential Election: Δ Trzaskowski support (2nd - 1st round)"
  const FirstRoundCsvPath := DataDir + "/first_round/wyniki_gl_na_kandydatow_po_gminach_utf8.csv"
  const SecondRoundCsvPath := DataDir + "/second_round/wyniki_gl_na_kandydatow_po_gminach_w_drugiej_turze_utf8.csv"
  const ChangeColumn := "trzaskowski_share_change_2025"

  /** `handler_gminy_trzaskowski_change_2025` as a value: the code and the change. */
  function HandlerSpec(first: Frame, second: Frame): Result<Frame> {
    match ShareChangeSpec(first, second, GminaCodeColumn, FirstRound.TrzaskowskiColumn, ChangeColumn)
    case Err(e) => Err(e)
    case Ok(m) => Select(m, [GminaCodeColumn, ChangeColumn])
  }

  /**
    * The handler: `second` is the second-round table the source reads from
    * `SecondRoundCsvPath`; the first round's frame has its header names trimmed.
    */
  method Handler(dfFirst: DataFrame, second: Frame) returns (r: Result<DataFrame>)
    modifies dfFirst
    ensures dfFirst.Value() == StripColumnNames(old(dfFirst.Value()))
    ensures Agrees(r, HandlerSpec(old(dfFirst.Value()), second))
    ensures r.Ok? ==> fresh(r.value)
  {
    var m := ShareChange(dfFirst, second, GminaCodeColumn, FirstRound.TrzaskowskiColumn, ChangeColumn);
    if m.Err? {
      return Err(m.error);
    }
    r := m.value.Pick([GminaCodeColumn, ChangeColumn]);
  }

  /**
    * Given both rounds normalised, the handler fails only for a missing
    * candidate or valid-vote column; otherwise it returns the code and the
    * change, one row for each pair of first- and second-round rows with the
    * same code, holding the second-round share minus the first-round share.
    */
  lemma HandlerPairsRounds(first: Frame, second: Frame, n1: Frame, n2: Frame)
    requires NormalizeGminyDataSpec(StripColumnNames(first), CodeArgs(GminaCodeColumn)) == Ok(n1)
    requires NormalizeGminyDataSpec(StripColumnNames(second), CodeArgs(GminaCodeColumn)) == Ok(n2)
    ensures HandlerSpec(first, second).Ok? <==>
              FirstRound.TrzaskowskiColumn in n1.cols && FirstRound.ValidVotesColumn in n1.cols &&
              FirstRound.TrzaskowskiColumn in n2.cols && FirstRound.ValidVotesColumn in n2.cols
    ensures HandlerSpec(first, second).Ok? ==>
              var out := HandlerSpec(first, second).value;
              out.cols == [GminaCodeColumn, ChangeColumn] &&
              (forall t :: 0 <= t < |out.rows| ==>
                 FromRoundsAs(n1, n2, out.rows[t], GminaCodeColumn, GminaCodeColumn, FirstRound.TrzaskowskiColumn, ChangeColumn)) &&
              (forall i, j :: 0 <= i < |n1.rows| && 0 <= j < |n2.rows| &&
                              At(n1.rows[i], GminaCodeColumn) == At(n2.rows[j], GminaCodeColumn) ==>
                 InOutputAs(out, n1.rows[i], n2.rows[j], GminaCodeColumn, GminaCodeColumn, FirstRound.TrzaskowskiColumn, ChangeColumn))
    ensures HandlerSpec(first, second).Ok? ==>
              OnePerPair(HandlerSpec(first, second).value, n1, n2, GminaCodeColumn, GminaCodeColumn,
                         FirstRound.TrzaskowskiColumn, ChangeColumn)
  {
    assert Plain(GminaCodeColumn);
    ShareChangePairs(first, second, GminaCodeColumn, FirstRound.TrzaskowskiColumn, ChangeColumn, n1, n2);
    var sc := ShareChangeSpec(first, second, GminaCodeColumn, FirstRound.TrzaskowskiColumn, ChangeColumn);
    if sc.Ok? {
      SelectedChangePairs(n1, n2, sc.value, GminaCodeColumn, FirstRound.TrzaskowskiColumn, ChangeColumn);
      SelectedOnePerPair(n1, n2, sc.value, GminaCodeColumn, FirstRound.TrzaskowskiColumn, ChangeColumn);
    }
  }
}
