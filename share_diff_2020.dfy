/**
  * The 2020 "change in Trzaskowski support" view. It follows the same
  * pipeline as the 2025 one, on tables keyed by "Kod TERYT", and renames
  * that column to "TERYT Gminy" at the end.
  */
module ShareDiff2020 {
  import opened Frames
  import opened Utilities
  import opened ShareDiff
  import FirstRound

  const DataDir := "data/poland/presidential_results_2020"
  const ViewName := "Poland: 2020 Presidential Election: Δ Trzaskowski support (2nd - 1st round)"
  const FirstRoundCsvPath := DataDir + "/first_round/wyniki_gl_na_kand_po_gminach_utf8.csv"
  const SecondRoundCsvPath := DataDir + "/second_round/wyniki_gl_na_kand_po_gminach_utf8 2.csv"
  const CodeColumn := "Kod TERYT"
  const CandidateColumn := "Rafał Kazimierz TRZASKOWSKI"
  const ChangeColumn := "trzaskowski_share_change_2020"

  /** `rename(columns={"Kod TERYT": "TERYT Gminy"})` as the new header list. */
  function RenamedKey(cols: seq<string>): (r: seq<string>)
    ensures |r| == |cols|
    ensures forall i :: 0 <= i < |cols| ==> r[i] == if cols[i] == CodeColumn then GminaCodeColumn else cols[i]
  {
    seq(|cols|, i requires 0 <= i < |cols| => if cols[i] == CodeColumn then GminaCodeColumn else cols[i])
  }

  /** `handler_gminy_trzaskowski_change_2020` as a value: the renamed code and the change. */
  function HandlerSpec(first: Frame, second: Frame): Result<Frame> {
    match ShareChangeSpec(first, second, CodeColumn, CandidateColumn, ChangeColumn)
    case Err(e) => Err(e)
    case Ok(m) => RenamedOutput(m)
  }

  /** The handler's last step on the merged table: rename the code column, keep the code and the change. */
  function RenamedOutput(m: Frame): Result<Frame> {
    Select(RenameColumns(m, RenamedKey(m.cols)), [GminaCodeColumn, ChangeColumn])
  }

  /**
    * The handler: `second` is the second-round table the source reads from
    * `SecondRoundCsvPath`; the first round's frame has its header names trimmed.
    */
  method Handler(dfFirst: DataFrame, second: Frame) returns (r: Result<DataFrame>)
    modifies dfFirst
    ensures dfFirst.Value() == StripColumnNames(old(dfFirst.Value()))
    ensures Agrees(r, HandlerSpec(old(dfFirst.Value()), second))
    ensures r.Ok? ==> fresh(r.value)
  {
    var m := ShareChange(dfFirst, second, CodeColumn, CandidateColumn, ChangeColumn);
    if m.Err? {
      return Err(m.error);
    }
    r := RenameAndPick(m.value);
  }

  /** Renames the merged frame's code column in place and picks the two output columns. */
  method RenameAndPick(merged: DataFrame) returns (r: Result<DataFrame>)
    modifies merged
    ensures Agrees(r, RenamedOutput(old(merged.Value())))
    ensures r.Ok? ==> fresh(r.value)
  {
    merged.SetColumnNames(RenamedKey(merged.cols));
    r := merged.Pick([GminaCodeColumn, ChangeColumn]);
  }

  /** The rename moves the code to "TERYT Gminy" and keeps the change, row by row. */
  lemma RenamedRows(m: Frame)
    requires m.cols == [CodeColumn, FirstShareColumn, SecondShareColumn, ChangeColumn]
    ensures var out := RenamedOutput(m);
            out.Ok? && out.value.cols == [GminaCodeColumn, ChangeColumn] && |out.value.rows| == |m.rows| &&
            forall t :: 0 <= t < |m.rows| ==>
              At(out.value.rows[t], GminaCodeColumn) == At(m.rows[t], CodeColumn) &&
              At(out.value.rows[t], ChangeColumn) == At(m.rows[t], ChangeColumn)
  {
    var names := RenamedKey(m.cols);
    assert names == [GminaCodeColumn, FirstShareColumn, SecondShareColumn, ChangeColumn];
    assert LastIndexOf(names, GminaCodeColumn) == 0 by {
      assert names[..3] == [GminaCodeColumn, FirstShareColumn, SecondShareColumn];
      assert names[..3][..2] == [GminaCodeColumn, FirstShareColumn];
      assert names[..3][..2][..1] == [GminaCodeColumn];
    }
    assert LastIndexOf(names, ChangeColumn) == 3;
    forall t | 0 <= t < |m.rows|
      ensures At(RenameRow(m.rows[t], m.cols, names), GminaCodeColumn) == At(m.rows[t], CodeColumn)
      ensures At(RenameRow(m.rows[t], m.cols, names), ChangeColumn) == At(m.rows[t], ChangeColumn)
    {
      RenameRowAt(m.rows[t], m.cols, names, GminaCodeColumn);
      RenameRowAt(m.rows[t], m.cols, names, ChangeColumn);
    }
  }

  /**
    * Given both rounds normalised, the handler fails only for a missing
    * candidate or valid-vote column; otherwise it returns "TERYT Gminy" and
    * the change, one row for each pair of first- and second-round rows with
    * the same "Kod TERYT", holding the second-round share minus the first.
    */
  lemma HandlerPairsRounds(first: Frame, second: Frame, n1: Frame, n2: Frame)
    requires NormalizeGminyDataSpec(StripColumnNames(first), CodeArgs(CodeColumn)) == Ok(n1)
    requires NormalizeGminyDataSpec(StripColumnNames(second), CodeArgs(CodeColumn)) == Ok(n2)
    ensures HandlerSpec(first, second).Ok? <==>
              CandidateColumn in n1.cols && FirstRound.ValidVotesColumn in n1.cols &&
              CandidateColumn in n2.cols && FirstRound.ValidVotesColumn in n2.cols
    ensures HandlerSpec(first, second).Ok? ==>
              var out := HandlerSpec(first, second).value;
              out.cols == [GminaCodeColumn, ChangeColumn] &&
              (forall t :: 0 <= t < |out.rows| ==>
                 FromRoundsAs(n1, n2, out.rows[t], CodeColumn, GminaCodeColumn, CandidateColumn, ChangeColumn)) &&
              (forall i, j :: 0 <= i < |n1.rows| && 0 <= j < |n2.rows| &&
                              At(n1.rows[i], CodeColumn) == At(n2.rows[j], CodeColumn) ==>
                 InOutputAs(out, n1.rows[i], n2.rows[j], CodeColumn, GminaCodeColumn, CandidateColumn, ChangeColumn))
    ensures HandlerSpec(first, second).Ok? ==>
              OnePerPair(HandlerSpec(first, second).value, n1, n2, CodeColumn, GminaCodeColumn, CandidateColumn, ChangeColumn)
  {
    assert Plain(CodeColumn);
    ShareChangePairs(first, second, CodeColumn, CandidateColumn, ChangeColumn, n1, n2);
    var sc := ShareChangeSpec(first, second, CodeColumn, CandidateColumn, ChangeColumn);
    if sc.Ok? {
      var m := sc.value;
      RenamedRows(m);
      var out := HandlerSpec(first, second).value;
      PairsCarryOver(n1, n2, m, out, CodeColumn, GminaCodeColumn, CandidateColumn, ChangeColumn);
      OnePerPairCarriesOver(n1, n2, m, out, CodeColumn, GminaCodeColumn, CandidateColumn, ChangeColumn);
    }
  }
}
