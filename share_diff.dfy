/**
  * The pipeline both "change in Trzaskowski support" handlers follow: strip
  * the header names of both rounds' tables, normalise the municipality
  * codes of each (with the Warsaw step), compute each round's share of the
  * valid votes, inner-join the two on the code and subtract.
  */
module ShareDiff {
  import opened Wrappers
  import opened Text
  import opened Frames
  import opened Utilities
  import FirstRound

  const FirstShareColumn := "share_r1"
  const SecondShareColumn := "share_r2"

  /** The normalisation both handlers ask for: codes in `key`, Warsaw step on, no value column. */
  function CodeArgs(key: string): (a: NormalizeArgs)
    ensures a.terytCol == key && a.warszawaFix && a.terytLen == CodeWidth
    ensures !Truthy(a.valueCol) && !Truthy(a.computedName)
  {
    NormalizeArgs(key, None, None, None, true, CodeWidth)
  }

  /** `to_num(candidate) / to_num(valid votes)` on one row. */
  function ShareCell(r: Row, cand: string): Cell {
    RatioCell(ToNumCell(At(r, cand)), ToNumCell(At(r, FirstRound.ValidVotesColumn)))
  }

  /** The share of every row of a round's table. */
  function ShareColumn(n: Frame, cand: string): (r: seq<Cell>)
    ensures |r| == |n.rows| && forall i :: 0 <= i < |n.rows| ==> r[i] == ShareCell(n.rows[i], cand)
  {
    seq(|n.rows|, i requires 0 <= i < |n.rows| => ShareCell(n.rows[i], cand))
  }

  /** A round's normalised table with its share column `shareCol` added. */
  function WithShare(n: Frame, cand: string, shareCol: string): (r: Result<Frame>)
    ensures r.Ok? <==> cand in n.cols && FirstRound.ValidVotesColumn in n.cols
    ensures r.Ok? ==> |r.value.rows| == |n.rows| && shareCol in r.value.cols &&
                      (forall c :: c in n.cols ==> c in r.value.cols) &&
                      forall i :: 0 <= i < |n.rows| ==> At(r.value.rows[i], shareCol) == ShareCell(n.rows[i], cand)
  {
    match FirstAbsent([cand, FirstRound.ValidVotesColumn], n.cols)
    case Some(c) => Err(KeyError(c))
    case None =>
      Ok(WithColumn(n, shareCol, ShareColumn(n, cand), true))
  }

  /** The inner join of the two rounds' selections on the code, with the change column added. */
  function ChangeFrame(p1: Frame, p2: Frame, key: string, change: string): Result<Frame> {
    match InnerJoin(p1, p2, key)
    case Err(e) => Err(e)
    case Ok(m) => Ok(WithColumn(m, change, Apply2(m, SecondShareColumn, FirstShareColumn, DiffCell), true))
  }

  /** From the two normalised tables: each round's share, the selections, the join and the change. */
  function RoundsChange(n1: Frame, n2: Frame, key: string, cand: string, change: string): Result<Frame> {
    match WithShare(n1, cand, FirstShareColumn)
    case Err(e) => Err(e)
    case Ok(s1) =>
      match WithShare(n2, cand, SecondShareColumn)
      case Err(e) => Err(e)
      case Ok(s2) =>
        match Select(s1, [key, FirstShareColumn])
        case Err(e) => Err(e)
        case Ok(p1) =>
          match Select(s2, [key, SecondShareColumn])
          case Err(e) => Err(e)
          case Ok(p2) => ChangeFrame(p1, p2, key, change)
  }

  /**
    * The merged table with the change column, before the handler's last
    * rename and selection. Errors come in the order the handler meets them:
    * normalising the first round, the second, then each round's share.
    */
  function ShareChangeSpec(first: Frame, second: Frame, key: string, cand: string, change: string): Result<Frame> {
    NormalizedChange(StripColumnNames(first), StripColumnNames(second), key, cand, change)
  }

  /** The pipeline from the two tables with trimmed header names: normalise each, then `RoundsChange`. */
  function NormalizedChange(f1: Frame, f2: Frame, key: string, cand: string, change: string): Result<Frame> {
    match NormalizeGminyDataSpec(f1, CodeArgs(key))
    case Err(e) => Err(e)
    case Ok(n1) =>
      match NormalizeGminyDataSpec(f2, CodeArgs(key))
      case Err(e) => Err(e)
      case Ok(n2) => RoundsChange(n1, n2, key, cand, change)
  }

  /**
    * The handlers' shared pipeline. The first round's frame has its header
    * names trimmed in place (nothing else of it changes); the second round's
    * table, read from disk in the source, is given as a value.
    */
  method ShareChange(dfFirst: DataFrame, second: Frame, key: string, cand: string, change: string)
    returns (r: Result<DataFrame>)
    modifies dfFirst
    ensures dfFirst.Value() == StripColumnNames(old(dfFirst.Value()))
    ensures Agrees(r, ShareChangeSpec(old(dfFirst.Value()), second, key, cand, change))
    ensures r.Ok? ==> fresh(r.value)
  {
    dfFirst.SetColumnNames(StrippedNames(dfFirst.cols));
    var dfSecond := new DataFrame(second);
    dfSecond.SetColumnNames(StrippedNames(dfSecond.cols));
    r := NormalizeAndJoin(dfFirst, dfSecond, key, cand, change);
  }

  /** Normalises both rounds' frames (each on a copy), then joins them. */
  method NormalizeAndJoin(d1: DataFrame, d2: DataFrame, key: string, cand: string, change: string)
    returns (r: Result<DataFrame>)
    ensures Agrees(r, NormalizedChange(d1.Value(), d2.Value(), key, cand, change))
    ensures r.Ok? ==> fresh(r.value)
  {
    var n1 := NormalizeGminyData(d1, CodeArgs(key));
    if n1.Err? {
      return Err(n1.error);
    }
    var n2 := NormalizeGminyData(d2, CodeArgs(key));
    if n2.Err? {
      return Err(n2.error);
    }
    r := JoinRounds(n1.value, n2.value, key, cand, change);
  }

  /** The handlers' steps after normalising: the share columns are written into both normalised frames. */
  method JoinRounds(d1: DataFrame, d2: DataFrame, key: string, cand: string, change: string)
    returns (r: Result<DataFrame>)
    requires d1 != d2
    modifies d1, d2
    ensures Agrees(r, RoundsChange(old(d1.Value()), old(d2.Value()), key, cand, change))
    ensures r.Ok? ==> fresh(r.value)
  {
    var missing := FirstAbsent([cand, FirstRound.ValidVotesColumn], d1.cols);
    if missing.Some? {
      return Err(KeyError(missing.value));
    }
    d1.Assign(FirstShareColumn, ShareColumn(d1.Value(), cand), true);
    missing := FirstAbsent([cand, FirstRound.ValidVotesColumn], d2.cols);
    if missing.Some? {
      return Err(KeyError(missing.value));
    }
    d2.Assign(SecondShareColumn, ShareColumn(d2.Value(), cand), true);
    var p1 := d1.Pick([key, FirstShareColumn]);
    if p1.Err? {
      return Err(p1.error);
    }
    var p2 := d2.Pick([key, SecondShareColumn]);
    if p2.Err? {
      return Err(p2.error);
    }
    var joined := InnerJoin(p1.value.Value(), p2.value.Value(), key);
    if joined.Err? {
      return Err(joined.error);
    }
    var merged := new DataFrame(joined.value);
    merged.Assign(change, Apply2(merged.Value(), SecondShareColumn, FirstShareColumn, DiffCell), true);
    return Ok(merged);
  }

  /** An output row pairs first-round row `g` and second-round row `d` of the same code. */
  predicate ChangeRow(g: Row, d: Row, o: Row, key: string, cand: string, change: string) {
    At(g, key) == At(d, key) && At(o, key) == At(g, key) &&
    At(o, change) == DiffCell(ShareCell(d, cand), ShareCell(g, cand))
  }

  /** Output row `o` comes from some pair of rows of the two rounds. */
  predicate FromRounds(n1: Frame, n2: Frame, o: Row, key: string, cand: string, change: string) {
    exists i, j :: 0 <= i < |n1.rows| && 0 <= j < |n2.rows| && ChangeRow(n1.rows[i], n2.rows[j], o, key, cand, change)
  }

  /** The pair of rows `g`, `d` shows up as some output row. */
  predicate InOutput(out: Frame, g: Row, d: Row, key: string, cand: string, change: string) {
    exists t :: 0 <= t < |out.rows| && ChangeRow(g, d, out.rows[t], key, cand, change)
  }

  /** The join of the two selections: which input column each output column comes from. */
  lemma MergedColumns(l: Frame, r: Frame, key: string)
    requires l.cols == [key, FirstShareColumn] && r.cols == [key, SecondShareColumn]
    requires Plain(key) && key != FirstShareColumn && key != SecondShareColumn
    ensures ShareSources(MergedSources(l, r, key, key), key)
  {
    assert Plain(FirstShareColumn) && Plain(SecondShareColumn);
    LeftColumnSource(l, r, key, key, key);
    LeftColumnSource(l, r, key, key, FirstShareColumn);
    RightColumnSource(l, r, key, key, SecondShareColumn);
  }

  /** A joined row `o` pairs selected first-round row `g` and second-round row `d`. */
  predicate JoinedPair(g: Row, d: Row, o: Row, key: string, change: string) {
    At(g, key) == At(d, key) && At(o, key) == At(g, key) &&
    At(o, change) == DiffCell(At(d, SecondShareColumn), At(g, FirstShareColumn))
  }

  predicate FromSelections(p1: Frame, p2: Frame, o: Row, key: string, change: string) {
    exists i, j :: 0 <= i < |p1.rows| && 0 <= j < |p2.rows| && JoinedPair(p1.rows[i], p2.rows[j], o, key, change)
  }

  predicate InJoin(out: Frame, g: Row, d: Row, key: string, change: string) {
    exists t :: 0 <= t < |out.rows| && JoinedPair(g, d, out.rows[t], key, change)
  }

  /** The join's column sources, as `MergedColumns` finds them for the two selections. */
  predicate ShareSources(srcs: seq<Source>, key: string) {
    LastSource(srcs, key) == Some(Source(key, Left, key)) &&
    LastSource(srcs, FirstShareColumn) == Some(Source(FirstShareColumn, Left, FirstShareColumn)) &&
    LastSource(srcs, SecondShareColumn) == Some(Source(SecondShareColumn, Right, SecondShareColumn))
  }

  /** One joined row `o`, with the change column written into it as `oc`, comes from a pair of selected rows. */
  lemma JoinedRowFromSelections(p1: Frame, p2: Frame, key: string, change: string, srcs: seq<Source>, o: Row, oc: Row)
    requires ShareSources(srcs, key)
    requires o in JoinRows(p1.rows, p2.rows, key, key, srcs, false)
    requires At(oc, key) == At(o, key)
    requires At(oc, change) == DiffCell(At(o, SecondShareColumn), At(o, FirstShareColumn))
    ensures FromSelections(p1, p2, oc, key, change)
  {
    InnerJoinRowsPaired(p1.rows, p2.rows, key, srcs, o);
    var g, d :| g in p1.rows && d in p2.rows && At(g, key) == At(d, key) && o == Fill(srcs, g, Some(d));
    var i :| 0 <= i < |p1.rows| && p1.rows[i] == g;
    var j :| 0 <= j < |p2.rows| && p2.rows[j] == d;
    JoinedRow(srcs, g, d, key);
    assert JoinedPair(p1.rows[i], p2.rows[j], oc, key, change);
  }

  /** Every row of the change frame comes from a pair of rows with equal codes. */
  lemma ChangeFrameRowsPaired(p1: Frame, p2: Frame, key: string, change: string)
    requires p1.cols == [key, FirstShareColumn] && p2.cols == [key, SecondShareColumn] && !KeyTypesClash(p1, p2, key, key)
    requires Plain(key) && key != FirstShareColumn && key != SecondShareColumn && change != key
    ensures ChangeFrame(p1, p2, key, change).Ok?
    ensures var out := ChangeFrame(p1, p2, key, change).value;
            forall t :: 0 <= t < |out.rows| ==> FromSelections(p1, p2, out.rows[t], key, change)
  {
    var srcs := MergedSources(p1, p2, key, key);
    var m := JoinFrame(p1, p2, key, key, false);
    var out := ChangeFrame(p1, p2, key, change).value;
    MergedColumns(p1, p2, key);
    forall t | 0 <= t < |out.rows|
      ensures FromSelections(p1, p2, out.rows[t], key, change)
    {
      JoinedRowFromSelections(p1, p2, key, change, srcs, m.rows[t], out.rows[t]);
    }
  }

  /** A pair of selected rows with equal codes shows up in the join, and so in the change frame `out`. */
  lemma SelectedPairJoined(p1: Frame, p2: Frame, key: string, change: string, srcs: seq<Source>, m: Frame, out: Frame,
                           i: nat, j: nat)
    requires ShareSources(srcs, key)
    requires m.rows == JoinRows(p1.rows, p2.rows, key, key, srcs, false) && |out.rows| == |m.rows|
    requires forall t :: 0 <= t < |m.rows| ==>
               (At(out.rows[t], key) == At(m.rows[t], key) &&
                At(out.rows[t], change) == DiffCell(At(m.rows[t], SecondShareColumn), At(m.rows[t], FirstShareColumn)))
    requires i < |p1.rows| && j < |p2.rows| && At(p1.rows[i], key) == At(p2.rows[j], key)
    ensures InJoin(out, p1.rows[i], p2.rows[j], key, change)
  {
    var g, d := p1.rows[i], p2.rows[j];
    InnerJoinHasPair(p1.rows, p2.rows, key, srcs, i, d);
    var o := Fill(srcs, g, Some(d));
    var t :| 0 <= t < |m.rows| && m.rows[t] == o;
    JoinedRow(srcs, g, d, key);
    assert JoinedPair(g, d, out.rows[t], key, change);
  }

  /** Every pair of rows with equal codes gives a row of the change frame. */
  lemma ChangeFrameHasPairs(p1: Frame, p2: Frame, key: string, change: string)
    requires p1.cols == [key, FirstShareColumn] && p2.cols == [key, SecondShareColumn] && !KeyTypesClash(p1, p2, key, key)
    requires Plain(key) && key != FirstShareColumn && key != SecondShareColumn && change != key
    ensures ChangeFrame(p1, p2, key, change).Ok?
    ensures var out := ChangeFrame(p1, p2, key, change).value;
            forall i, j :: 0 <= i < |p1.rows| && 0 <= j < |p2.rows| && At(p1.rows[i], key) == At(p2.rows[j], key) ==>
              InJoin(out, p1.rows[i], p2.rows[j], key, change)
  {
    var srcs := MergedSources(p1, p2, key, key);
    var m := JoinFrame(p1, p2, key, key, false);
    var out := ChangeFrame(p1, p2, key, change).value;
    MergedColumns(p1, p2, key);
    forall i, j | 0 <= i < |p1.rows| && 0 <= j < |p2.rows| && At(p1.rows[i], key) == At(p2.rows[j], key)
      ensures InJoin(out, p1.rows[i], p2.rows[j], key, change)
    {
      SelectedPairJoined(p1, p2, key, change, srcs, m, out, i, j);
    }
  }

  /** Whether a selection `p` carries, row by row, the code and the share of table `n`. */
  predicate SelectionOf(p: Frame, n: Frame, key: string, cand: string, shareCol: string) {
    p.cols == [key, shareCol] && |p.rows| == |n.rows| && (key in p.numeric <==> key in n.numeric) &&
    forall i :: 0 <= i < |n.rows| ==>
      At(p.rows[i], key) == At(n.rows[i], key) && At(p.rows[i], shareCol) == ShareCell(n.rows[i], cand)
  }

  /** The pairing of a change frame, restated on the rows of the tables the selections come from. */
  lemma PairsOnRounds(n1: Frame, n2: Frame, p1: Frame, p2: Frame, key: string, cand: string, change: string, out: Frame)
    requires SelectionOf(p1, n1, key, cand, FirstShareColumn) && SelectionOf(p2, n2, key, cand, SecondShareColumn)
    requires forall t :: 0 <= t < |out.rows| ==> FromSelections(p1, p2, out.rows[t], key, change)
    requires forall i, j :: 0 <= i < |p1.rows| && 0 <= j < |p2.rows| && At(p1.rows[i], key) == At(p2.rows[j], key) ==>
               InJoin(out, p1.rows[i], p2.rows[j], key, change)
    ensures forall t :: 0 <= t < |out.rows| ==> FromRounds(n1, n2, out.rows[t], key, cand, change)
    ensures forall i, j :: 0 <= i < |n1.rows| && 0 <= j < |n2.rows| && At(n1.rows[i], key) == At(n2.rows[j], key) ==>
              InOutput(out, n1.rows[i], n2.rows[j], key, cand, change)
  {
    forall t | 0 <= t < |out.rows|
      ensures FromRounds(n1, n2, out.rows[t], key, cand, change)
    {
      SelectedRowFromRounds(n1, n2, p1, p2, key, cand, change, out.rows[t]);
    }
    forall i, j | 0 <= i < |n1.rows| && 0 <= j < |n2.rows| && At(n1.rows[i], key) == At(n2.rows[j], key)
      ensures InOutput(out, n1.rows[i], n2.rows[j], key, cand, change)
    {
      assert InJoin(out, p1.rows[i], p2.rows[j], key, change);
      SelectedPairInOutput(n1, n2, p1, p2, key, cand, change, out, i, j);
    }
  }

  lemma SelectedRowFromRounds(n1: Frame, n2: Frame, p1: Frame, p2: Frame, key: string, cand: string, change: string, o: Row)
    requires SelectionOf(p1, n1, key, cand, FirstShareColumn) && SelectionOf(p2, n2, key, cand, SecondShareColumn)
    requires FromSelections(p1, p2, o, key, change)
    ensures FromRounds(n1, n2, o, key, cand, change)
  {
    var i, j :| 0 <= i < |p1.rows| && 0 <= j < |p2.rows| && JoinedPair(p1.rows[i], p2.rows[j], o, key, change);
    assert ChangeRow(n1.rows[i], n2.rows[j], o, key, cand, change);
  }

  lemma SelectedPairInOutput(n1: Frame, n2: Frame, p1: Frame, p2: Frame, key: string, cand: string, change: string,
                             out: Frame, i: nat, j: nat)
    requires SelectionOf(p1, n1, key, cand, FirstShareColumn) && SelectionOf(p2, n2, key, cand, SecondShareColumn)
    requires i < |n1.rows| && j < |n2.rows|
    requires InJoin(out, p1.rows[i], p2.rows[j], key, change)
    ensures InOutput(out, n1.rows[i], n2.rows[j], key, cand, change)
  {
    var t :| 0 <= t < |out.rows| && JoinedPair(p1.rows[i], p2.rows[j], out.rows[t], key, change);
    assert ChangeRow(n1.rows[i], n2.rows[j], out.rows[t], key, cand, change);
  }

  /**
    * From two normalised tables, the change table pairs the rounds exactly:
    * every output row joins a first-round and a second-round row with the
    * same code and holds the second share minus the first, and every such
    * pair gives an output row; a code found in only one round is dropped.
    * It fails only when a round lacks the candidate or the valid-vote column.
    */
  lemma RoundsChangePairs(n1: Frame, n2: Frame, key: string, cand: string, change: string)
    requires key in n1.cols && key in n2.cols
    requires Plain(key) && key != FirstShareColumn && key != SecondShareColumn && change != key
    requires change != FirstShareColumn && change != SecondShareColumn
    ensures RoundsChange(n1, n2, key, cand, change).Ok? <==>
              cand in n1.cols && FirstRound.ValidVotesColumn in n1.cols &&
              cand in n2.cols && FirstRound.ValidVotesColumn in n2.cols &&
              !KeyTypesClash(n1, n2, key, key)
    ensures RoundsChange(n1, n2, key, cand, change).Ok? ==>
              var out := RoundsChange(n1, n2, key, cand, change).value;
              out.cols == [key, FirstShareColumn, SecondShareColumn, change] &&
              (forall t :: 0 <= t < |out.rows| ==> FromRounds(n1, n2, out.rows[t], key, cand, change)) &&
              (forall i, j :: 0 <= i < |n1.rows| && 0 <= j < |n2.rows| && At(n1.rows[i], key) == At(n2.rows[j], key) ==>
                 InOutput(out, n1.rows[i], n2.rows[j], key, cand, change))
    ensures RoundsChange(n1, n2, key, cand, change).Ok? ==>
              OnePerPair(RoundsChange(n1, n2, key, cand, change).value, n1, n2, key, key, cand, change)
  {
    if cand in n1.cols && FirstRound.ValidVotesColumn in n1.cols && cand in n2.cols && FirstRound.ValidVotesColumn in n2.cols {
      SelectedRound(n1, key, cand, FirstShareColumn);
      SelectedRound(n2, key, cand, SecondShareColumn);
      var p1 := Select(WithShare(n1, cand, FirstShareColumn).value, [key, FirstShareColumn]).value;
      var p2 := Select(WithShare(n2, cand, SecondShareColumn).value, [key, SecondShareColumn]).value;
      assert RoundsChange(n1, n2, key, cand, change) == ChangeFrame(p1, p2, key, change);
      if KeyTypesClash(n1, n2, key, key) {
        assert InnerJoin(p1, p2, key).Err?;
        return;
      }
      ChangeFrameRowsPaired(p1, p2, key, change);
      ChangeFrameHasPairs(p1, p2, key, change);
      ChangeFrameColumns(p1, p2, key, change);
      PairsOnRounds(n1, n2, p1, p2, key, cand, change, ChangeFrame(p1, p2, key, change).value);
      ChangeFramePairs(p1, p2, key, change);
      OnePerPairOnRounds(n1, n2, p1, p2, key, cand, change, ChangeFrame(p1, p2, key, change).value);
    }
  }

  /**
    * The pipeline as the handlers run it, from the raw tables: given both
    * rounds normalised, it fails only for a missing candidate or valid-vote
    * column, and otherwise pairs the rounds as `RoundsChangePairs` says.
    */
  lemma ShareChangePairs(first: Frame, second: Frame, key: string, cand: string, change: string, n1: Frame, n2: Frame)
    requires Plain(key) && key != FirstShareColumn && key != SecondShareColumn && change != key
    requires change != FirstShareColumn && change != SecondShareColumn
    requires NormalizeGminyDataSpec(StripColumnNames(first), CodeArgs(key)) == Ok(n1)
    requires NormalizeGminyDataSpec(StripColumnNames(second), CodeArgs(key)) == Ok(n2)
    ensures ShareChangeSpec(first, second, key, cand, change) == RoundsChange(n1, n2, key, cand, change)
    ensures ShareChangeSpec(first, second, key, cand, change).Ok? <==>
              cand in n1.cols && FirstRound.ValidVotesColumn in n1.cols &&
              cand in n2.cols && FirstRound.ValidVotesColumn in n2.cols
    ensures ShareChangeSpec(first, second, key, cand, change).Ok? ==>
              var m := ShareChangeSpec(first, second, key, cand, change).value;
              m.cols == [key, FirstShareColumn, SecondShareColumn, change] &&
              (forall t :: 0 <= t < |m.rows| ==> FromRounds(n1, n2, m.rows[t], key, cand, change)) &&
              (forall i, j :: 0 <= i < |n1.rows| && 0 <= j < |n2.rows| && At(n1.rows[i], key) == At(n2.rows[j], key) ==>
                 InOutput(m, n1.rows[i], n2.rows[j], key, cand, change))
    ensures ShareChangeSpec(first, second, key, cand, change).Ok? ==>
              OnePerPair(ShareChangeSpec(first, second, key, cand, change).value, n1, n2, key, key, cand, change)
  {
    NormalizedHasKey(StripColumnNames(first), key, n1);
    NormalizedHasKey(StripColumnNames(second), key, n2);
    RoundsChangePairs(n1, n2, key, cand, change);
  }

  /** Selecting the code and the change keeps the pairing. */
  lemma SelectedChangePairs(n1: Frame, n2: Frame, m: Frame, key: string, cand: string, change: string)
    requires m.cols == [key, FirstShareColumn, SecondShareColumn, change]
    requires forall t :: 0 <= t < |m.rows| ==> FromRounds(n1, n2, m.rows[t], key, cand, change)
    requires forall i, j :: 0 <= i < |n1.rows| && 0 <= j < |n2.rows| && At(n1.rows[i], key) == At(n2.rows[j], key) ==>
               InOutput(m, n1.rows[i], n2.rows[j], key, cand, change)
    ensures Select(m, [key, change]).Ok?
    ensures var out := Select(m, [key, change]).value;
            out.cols == [key, change] &&
            (forall t :: 0 <= t < |out.rows| ==> FromRoundsAs(n1, n2, out.rows[t], key, key, cand, change)) &&
            (forall i, j :: 0 <= i < |n1.rows| && 0 <= j < |n2.rows| && At(n1.rows[i], key) == At(n2.rows[j], key) ==>
               InOutputAs(out, n1.rows[i], n2.rows[j], key, key, cand, change))
  {
    var out := Select(m, [key, change]).value;
    PairsCarryOver(n1, n2, m, out, key, key, cand, change);
  }

  /** A round's selection: its code and its share, row by row. */
  lemma SelectedRound(n: Frame, key: string, cand: string, shareCol: string)
    requires key in n.cols && cand in n.cols && FirstRound.ValidVotesColumn in n.cols && key != shareCol
    ensures var p := Select(WithShare(n, cand, shareCol).value, [key, shareCol]);
            p.Ok? && SelectionOf(p.value, n, key, cand, shareCol)
  {
  }

  /** A normalised table keeps its code column, as text. */
  lemma NormalizedHasKey(f: Frame, key: string, n: Frame)
    requires NormalizeGminyDataSpec(f, CodeArgs(key)) == Ok(n)
    ensures key in n.cols && key !in n.numeric
  {
    assert Cleaned(f, CodeArgs(key)) == Ok(n);
  }

  /** The columns of the join of the two selections: the code, then the two shares. */
  lemma MergedNames(l: Frame, r: Frame, key: string)
    requires l.cols == [key, FirstShareColumn] && r.cols == [key, SecondShareColumn]
    requires key != FirstShareColumn && key != SecondShareColumn
    ensures SourceNames(MergedSources(l, r, key, key)) == [key, FirstShareColumn, SecondShareColumn]
  {
    var ls := LeftSources(l.cols, r.cols, Some(key));
    assert ls[0].name == key && ls[1].name == FirstShareColumn;
    var rest := RightSources(r.cols[1..], l.cols, Some(key));
    assert r.cols[1..] == [SecondShareColumn] && r.cols[1..][1..] == [];
    assert SecondShareColumn !in l.cols;
    assert rest == [Source(SecondShareColumn, Right, SecondShareColumn)] + RightSources([], l.cols, Some(key));
    assert RightSources(r.cols, l.cols, Some(key)) == rest;
  }

  /** The change table's columns: the code, the two shares and the change. */
  lemma ChangeFrameColumns(p1: Frame, p2: Frame, key: string, change: string)
    requires p1.cols == [key, FirstShareColumn] && p2.cols == [key, SecondShareColumn] && !KeyTypesClash(p1, p2, key, key)
    requires key != FirstShareColumn && key != SecondShareColumn
    requires change != key && change != FirstShareColumn && change != SecondShareColumn
    ensures ChangeFrame(p1, p2, key, change).Ok?
    ensures ChangeFrame(p1, p2, key, change).value.cols == [key, FirstShareColumn, SecondShareColumn, change]
  {
    MergedNames(p1, p2, key);
  }

  /**
    * The pairing survives a step that keeps every row's code and change cells
    * (a selection or a rename of the columns).
    */
  lemma PairsCarryOver(n1: Frame, n2: Frame, m: Frame, out: Frame, key: string, outKey: string, cand: string, change: string)
    requires |out.rows| == |m.rows|
    requires forall t :: 0 <= t < |m.rows| ==>
               At(out.rows[t], outKey) == At(m.rows[t], key) && At(out.rows[t], change) == At(m.rows[t], change)
    requires forall t :: 0 <= t < |m.rows| ==> FromRounds(n1, n2, m.rows[t], key, cand, change)
    requires forall i, j :: 0 <= i < |n1.rows| && 0 <= j < |n2.rows| && At(n1.rows[i], key) == At(n2.rows[j], key) ==>
               InOutput(m, n1.rows[i], n2.rows[j], key, cand, change)
    ensures forall t :: 0 <= t < |out.rows| ==> FromRoundsAs(n1, n2, out.rows[t], key, outKey, cand, change)
    ensures forall i, j :: 0 <= i < |n1.rows| && 0 <= j < |n2.rows| && At(n1.rows[i], key) == At(n2.rows[j], key) ==>
              InOutputAs(out, n1.rows[i], n2.rows[j], key, outKey, cand, change)
  {
    forall t | 0 <= t < |out.rows|
      ensures FromRoundsAs(n1, n2, out.rows[t], key, outKey, cand, change)
    {
      RowCarriesOver(n1, n2, m.rows[t], out.rows[t], key, outKey, cand, change);
    }
    forall i, j | 0 <= i < |n1.rows| && 0 <= j < |n2.rows| && At(n1.rows[i], key) == At(n2.rows[j], key)
      ensures InOutputAs(out, n1.rows[i], n2.rows[j], key, outKey, cand, change)
    {
      PairCarriesOver(n1.rows[i], n2.rows[j], m, out, key, outKey, cand, change);
    }
  }

  /** One output row that renames the code column of a joined row still comes from a pair of input rows. */
  lemma RowCarriesOver(n1: Frame, n2: Frame, mr: Row, o: Row, key: string, outKey: string, cand: string, change: string)
    requires At(o, outKey) == At(mr, key) && At(o, change) == At(mr, change)
    requires FromRounds(n1, n2, mr, key, cand, change)
    ensures FromRoundsAs(n1, n2, o, key, outKey, cand, change)
  {
    var i, j :| 0 <= i < |n1.rows| && 0 <= j < |n2.rows| && ChangeRow(n1.rows[i], n2.rows[j], mr, key, cand, change);
    assert ChangeRowAs(n1.rows[i], n2.rows[j], o, key, outKey, cand, change);
  }

  /** A matching pair of input rows that the joined frame holds is still held once the code column is renamed. */
  lemma PairCarriesOver(g: Row, d: Row, m: Frame, out: Frame, key: string, outKey: string, cand: string, change: string)
    requires |out.rows| == |m.rows|
    requires forall t :: 0 <= t < |m.rows| ==>
               At(out.rows[t], outKey) == At(m.rows[t], key) && At(out.rows[t], change) == At(m.rows[t], change)
    requires InOutput(m, g, d, key, cand, change)
    ensures InOutputAs(out, g, d, key, outKey, cand, change)
  {
    var t :| 0 <= t < |m.rows| && ChangeRow(g, d, m.rows[t], key, cand, change);
    assert ChangeRowAs(g, d, out.rows[t], key, outKey, cand, change);
  }

  /** `ChangeRow` where the output carries the code under the name `outKey`. */
  predicate ChangeRowAs(g: Row, d: Row, o: Row, key: string, outKey: string, cand: string, change: string) {
    At(g, key) == At(d, key) && At(o, outKey) == At(g, key) &&
    At(o, change) == DiffCell(ShareCell(d, cand), ShareCell(g, cand))
  }

  predicate FromRoundsAs(n1: Frame, n2: Frame, o: Row, key: string, outKey: string, cand: string, change: string) {
    exists i, j :: 0 <= i < |n1.rows| && 0 <= j < |n2.rows| && ChangeRowAs(n1.rows[i], n2.rows[j], o, key, outKey, cand, change)
  }

  predicate InOutputAs(out: Frame, g: Row, d: Row, key: string, outKey: string, cand: string, change: string) {
    exists t :: 0 <= t < |out.rows| && ChangeRowAs(g, d, out.rows[t], key, outKey, cand, change)
  }

  /**
    * One output row per pair of rows with equal codes: row `t` of `out` is
    * the change of the `t`-th pair `KeyPairs` lists (each such pair once, in
    * first-round order and then second-round order), its code under `outKey`.
    */
  predicate OnePerPair(out: Frame, n1: Frame, n2: Frame, key: string, outKey: string, cand: string, change: string) {
    var ps := KeyPairs(n1.rows, n2.rows, key, key, 0);
    |out.rows| == |ps| &&
    forall t :: 0 <= t < |ps| ==> ChangeRowAs(n1.rows[ps[t].0], n2.rows[ps[t].1], out.rows[t], key, outKey, cand, change)
  }

  /** The change frame has one row per pair of selected rows with equal codes, in `KeyPairs` order. */
  lemma ChangeFramePairs(p1: Frame, p2: Frame, key: string, change: string)
    requires p1.cols == [key, FirstShareColumn] && p2.cols == [key, SecondShareColumn] && !KeyTypesClash(p1, p2, key, key)
    requires Plain(key) && key != FirstShareColumn && key != SecondShareColumn && change != key
    ensures ChangeFrame(p1, p2, key, change).Ok?
    ensures var out := ChangeFrame(p1, p2, key, change).value;
            var ps := KeyPairs(p1.rows, p2.rows, key, key, 0);
            |out.rows| == |ps| &&
            forall t :: 0 <= t < |ps| ==> JoinedPair(p1.rows[ps[t].0], p2.rows[ps[t].1], out.rows[t], key, change)
  {
    var srcs := MergedSources(p1, p2, key, key);
    var m := JoinFrame(p1, p2, key, key, false);
    var out := ChangeFrame(p1, p2, key, change).value;
    var ps := KeyPairs(p1.rows, p2.rows, key, key, 0);
    MergedColumns(p1, p2, key);
    InnerJoinPairs(p1.rows, p2.rows, key, key, srcs);
    forall t | 0 <= t < |ps|
      ensures JoinedPair(p1.rows[ps[t].0], p2.rows[ps[t].1], out.rows[t], key, change)
    {
      JoinedRow(srcs, p1.rows[ps[t].0], p2.rows[ps[t].1], key);
    }
  }

  /** One row per pair of selected rows is one row per pair of rows of the rounds they select from. */
  lemma OnePerPairOnRounds(n1: Frame, n2: Frame, p1: Frame, p2: Frame, key: string, cand: string, change: string, out: Frame)
    requires SelectionOf(p1, n1, key, cand, FirstShareColumn) && SelectionOf(p2, n2, key, cand, SecondShareColumn)
    requires var ps := KeyPairs(p1.rows, p2.rows, key, key, 0);
             |out.rows| == |ps| &&
             forall t :: 0 <= t < |ps| ==> JoinedPair(p1.rows[ps[t].0], p2.rows[ps[t].1], out.rows[t], key, change)
    ensures OnePerPair(out, n1, n2, key, key, cand, change)
  {
    KeyPairsSameKeys(p1.rows, p2.rows, n1.rows, n2.rows, key, key, 0);
    var ps := KeyPairs(n1.rows, n2.rows, key, key, 0);
    forall t | 0 <= t < |ps|
      ensures ChangeRowAs(n1.rows[ps[t].0], n2.rows[ps[t].1], out.rows[t], key, key, cand, change)
    {
      assert JoinedPair(p1.rows[ps[t].0], p2.rows[ps[t].1], out.rows[t], key, change);
    }
  }

  /** One row per pair survives a step that keeps every row's code and change cells. */
  lemma OnePerPairCarriesOver(n1: Frame, n2: Frame, m: Frame, out: Frame, key: string, outKey: string, cand: string, change: string)
    requires |out.rows| == |m.rows|
    requires forall t :: 0 <= t < |m.rows| ==>
               At(out.rows[t], outKey) == At(m.rows[t], key) && At(out.rows[t], change) == At(m.rows[t], change)
    requires OnePerPair(m, n1, n2, key, key, cand, change)
    ensures OnePerPair(out, n1, n2, key, outKey, cand, change)
  {
    var ps := KeyPairs(n1.rows, n2.rows, key, key, 0);
    forall t | 0 <= t < |ps|
      ensures ChangeRowAs(n1.rows[ps[t].0], n2.rows[ps[t].1], out.rows[t], key, outKey, cand, change)
    {
      assert ChangeRowAs(n1.rows[ps[t].0], n2.rows[ps[t].1], m.rows[t], key, key, cand, change);
    }
  }

  /** Selecting the code and the change keeps one row per pair. */
  lemma SelectedOnePerPair(n1: Frame, n2: Frame, m: Frame, key: string, cand: string, change: string)
    requires m.cols == [key, FirstShareColumn, SecondShareColumn, change]
    requires OnePerPair(m, n1, n2, key, key, cand, change)
    ensures Select(m, [key, change]).Ok?
    ensures OnePerPair(Select(m, [key, change]).value, n1, n2, key, key, cand, change)
  {
    OnePerPairCarriesOver(n1, n2, m, Select(m, [key, change]).value, key, key, cand, change);
  }

  /** The cells of a joined row, given where its three columns come from. */
  lemma JoinedRow(srcs: seq<Source>, g: Row, d: Row, key: string)
    requires ShareSources(srcs, key)
    ensures var o := Fill(srcs, g, Some(d));
            At(o, key) == At(g, key) && At(o, FirstShareColumn) == At(g, FirstShareColumn) &&
            At(o, SecondShareColumn) == At(d, SecondShareColumn)
  {
    FillAt(srcs, g, Some(d), key);
    FillAt(srcs, g, Some(d), FirstShareColumn);
    FillAt(srcs, g, Some(d), SecondShareColumn);
  }
}
