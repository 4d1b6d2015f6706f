/**
  * The configuration tables: for each (level, view) key, the level
  * configuration the plotter is driven by. The first-round table exists in
  * the current and the legacy copy, which differ only in the municipality
  * handlers; the two share-change tables have one municipality entry each.
  */
module LevelConfigs {
  import opened Wrappers
  import opened Frames
  import opened Utilities
  import opened Handlers
  import opened Plotter
  import FirstRound
  import LegacyFirstRound
  import ShareDiff2020
  import ShareDiff2025

  /** What a first-round view shows. */
  datatype Indicator = Turnout | InvalidShare | TrzaskowskiShare

  /**
    * The views the tables offer; `ViewName` is the string each is keyed by.
    * The invalid-share and Trzaskowski-share keys are written out in the
    * tables, not taken from the unused `INVALID_VOTES_VIEW` and
    * `TRZASKOWSKI_VIEW` constants, whose text differs.
    */
  datatype View = FirstRoundView(indicator: Indicator) | Change2020 | Change2025

  /** A table keyed by level and view. */
  type ConfigTable = map<(AdminLevel, View), LevelConfig>

  const MainTitle := "Poland: 2025 Presidential Election, first round"
  const DataDir := "data/poland/presidential_results_2025/first_round"

  const TurnoutView := MainTitle + ": turnout"
  const InvalidShareView := MainTitle + ": invalid share"
  const TrzaskowskiShareView := MainTitle + ": Trzaskowski share"

  function ViewName(v: View): string {
    match v
    case FirstRoundView(Turnout) => TurnoutView
    case FirstRoundView(InvalidShare) => InvalidShareView
    case FirstRoundView(TrzaskowskiShare) => TrzaskowskiShareView
    case Change2020 => ShareDiff2020.ViewName
    case Change2025 => ShareDiff2025.ViewName
  }

  /** No two first-round views share a name, so keying that table by `View` is keying it by name. */
  lemma FirstRoundViewNamesDistinct(i: Indicator, j: Indicator)
    requires i != j
    ensures ViewName(FirstRoundView(i)) != ViewName(FirstRoundView(j))
  {
    assert |ViewName(FirstRoundView(i))| != |ViewName(FirstRoundView(j))|;
  }

  const WojewodztwaCsv := DataDir + "/wyniki_gl_na_kandydatow_po_wojewodztwach_utf8.csv"
  const PowiatyCsv := DataDir + "/wyniki_gl_na_kandydatow_po_powiatach_utf8.csv"
  const GminyCsv := DataDir + "/wyniki_gl_na_kandydatow_po_gminach_utf8.csv"

  /** The level a handler's table is drawn at. */
  function HandlerLevel(h: Handler): AdminLevel {
    match h
    case GminyTurnout | GminyInvalid | GminyInvalidShare | GminyTrzaskowskiShare
       | LegacyGminyTurnout | LegacyGminyInvalid | LegacyGminyInvalidShare | LegacyGminyTrzaskowskiShare
       | TrzaskowskiChange2020 | TrzaskowskiChange2025 => Gminy
    case PowiatyTurnout | PowiatyInvalidShare | PowiatyTrzaskowskiShare => Powiaty
    case WojewodztwaTurnout | WojewodztwaInvalidShare | WojewodztwaTrzaskowskiShare => Wojewodztwa
    case PolskaTurnout | PolskaInvalidShare | PolskaTrzaskowskiShare => Polska
  }

  /** The boundary preprocessor a level's boundaries need before the join. */
  function PreprocessorFor(l: AdminLevel): Option<Preprocessor> {
    match l
    case Gminy => Some(GminyGeo)
    case Wojewodztwa => Some(WojewodztwaGeo)
    case _ => None
  }

  /** The first-round keys: each of the three views at each of the four levels. */
  const FirstRoundKeys: set<(AdminLevel, View)> := {
    (Polska, FirstRoundView(Turnout)), (Wojewodztwa, FirstRoundView(Turnout)),
    (Powiaty, FirstRoundView(Turnout)), (Gminy, FirstRoundView(Turnout)),
    (Polska, FirstRoundView(InvalidShare)), (Wojewodztwa, FirstRoundView(InvalidShare)),
    (Powiaty, FirstRoundView(InvalidShare)), (Gminy, FirstRoundView(InvalidShare)),
    (Polska, FirstRoundView(TrzaskowskiShare)), (Wojewodztwa, FirstRoundView(TrzaskowskiShare)),
    (Powiaty, FirstRoundView(TrzaskowskiShare)), (Gminy, FirstRoundView(TrzaskowskiShare))}

  /**
    * The first-round entry for a level and an indicator, with the three
    * municipality handlers given (the current and the legacy copy each name
    * their own).
    */
  function FirstRoundEntry(l: AdminLevel, i: Indicator, gminyTurnout: Handler, gminyInvalidShare: Handler,
                           gminyTrzaskowskiShare: Handler): LevelConfig {
    match (i, l)
    case (Turnout, Polska) =>
      LevelConfig(csvPath := Some(WojewodztwaCsv), terytCol := Some(BoundaryCodeColumn),
                  handler := Some(PolskaTurnout), valueCol := Some(FirstRound.TurnoutColumn),
                  title := Some(MainTitle + ": voter turnout"),
                  preprocessor := None)
    case (Turnout, Wojewodztwa) =>
      LevelConfig(csvPath := Some(WojewodztwaCsv), terytCol := Some(WojewodztwoColumn),
                  handler := Some(WojewodztwaTurnout), valueCol := Some(FirstRound.TurnoutColumn),
                  title := Some(MainTitle + ": Voter turnout by województwo"),
                  preprocessor := Some(WojewodztwaGeo))
    case (Turnout, Powiaty) =>
      LevelConfig(csvPath := Some(PowiatyCsv), terytCol := Some(FirstRound.PowiatKeyColumn),
                  handler := Some(PowiatyTurnout), valueCol := Some(FirstRound.TurnoutColumn),
                  title := Some(MainTitle + ": Voter turnout by powiat"),
                  preprocessor := None)
    case (Turnout, Gminy) =>
      LevelConfig(csvPath := Some(GminyCsv), terytCol := Some(GminaCodeColumn),
                  handler := Some(gminyTurnout), valueCol := Some(FirstRound.TurnoutColumn),
                  title := Some(MainTitle + ": Voter turnout by gmina"),
                  preprocessor := Some(GminyGeo))
    case (InvalidShare, Polska) =>
      LevelConfig(csvPath := Some(WojewodztwaCsv), terytCol := Some(BoundaryCodeColumn),
                  handler := Some(PolskaInvalidShare), valueCol := Some(FirstRound.InvalidShareColumn),
                  title := Some(MainTitle + ": % of invalid votes (Polska)"),
                  preprocessor := None)
    case (InvalidShare, Wojewodztwa) =>
      LevelConfig(csvPath := Some(WojewodztwaCsv), terytCol := Some(WojewodztwoColumn),
                  handler := Some(WojewodztwaInvalidShare), valueCol := Some(FirstRound.InvalidShareColumn),
                  title := Some(MainTitle + ": % of invalid votes by województwo"),
                  preprocessor := Some(WojewodztwaGeo))
    case (InvalidShare, Powiaty) =>
      LevelConfig(csvPath := Some(PowiatyCsv), terytCol := Some(FirstRound.PowiatKeyColumn),
                  handler := Some(PowiatyInvalidShare), valueCol := Some(FirstRound.InvalidShareColumn),
                  title := Some(MainTitle + ": % of invalid votes by powiat"),
                  preprocessor := None)
    case (InvalidShare, Gminy) =>
      LevelConfig(csvPath := Some(GminyCsv), terytCol := Some(GminaCodeColumn),
                  handler := Some(gminyInvalidShare), valueCol := Some(FirstRound.InvalidShareColumn),
                  title := Some(MainTitle + ": % of invalid votes by gmina"),
                  preprocessor := Some(GminyGeo))
    case (TrzaskowskiShare, Polska) =>
      LevelConfig(csvPath := Some(WojewodztwaCsv), terytCol := Some(BoundaryCodeColumn),
                  handler := Some(PolskaTrzaskowskiShare), valueCol := Some(FirstRound.TrzaskowskiShareColumn),
                  title := Some(MainTitle + ": % support for Trzaskowski (Polska)"),
                  preprocessor := None)
    case (TrzaskowskiShare, Wojewodztwa) =>
      LevelConfig(csvPath := Some(WojewodztwaCsv), terytCol := Some(WojewodztwoColumn),
                  handler := Some(WojewodztwaTrzaskowskiShare), valueCol := Some(FirstRound.TrzaskowskiShareColumn),
                  title := Some(MainTitle + ": % support for Trzaskowski by województwo"),
                  preprocessor := Some(WojewodztwaGeo))
    case (TrzaskowskiShare, Powiaty) =>
      LevelConfig(csvPath := Some(PowiatyCsv), terytCol := Some(FirstRound.PowiatKeyColumn),
                  handler := Some(PowiatyTrzaskowskiShare), valueCol := Some(FirstRound.TrzaskowskiShareColumn),
                  title := Some(MainTitle + ": % support for Trzaskowski by powiat"),
                  preprocessor := None)
    case (TrzaskowskiShare, Gminy) =>
      LevelConfig(csvPath := Some(GminyCsv), terytCol := Some(GminaCodeColumn),
                  handler := Some(gminyTrzaskowskiShare), valueCol := Some(FirstRound.TrzaskowskiShareColumn),
                  title := Some(MainTitle + ": % support for Trzaskowski by gmina"),
                  preprocessor := Some(GminyGeo))
  }

  /** The first-round table: one entry per first-round key. */
  function FirstRoundTable(gminyTurnout: Handler, gminyInvalidShare: Handler, gminyTrzaskowskiShare: Handler): ConfigTable {
    map k | k in FirstRoundKeys :: FirstRoundEntry(k.0, k.1.indicator, gminyTurnout, gminyInvalidShare, gminyTrzaskowskiShare)
  }

  /** `LC_PL_2025_PE_FIRST` of the current copy. */
  const FirstRoundConfigs := FirstRoundTable(GminyTurnout, GminyInvalidShare, GminyTrzaskowskiShare)

  /** `LC_PL_2025_PE_FIRST` of the legacy copy. */
  const LegacyFirstRoundConfigs := FirstRoundTable(LegacyGminyTurnout, LegacyGminyInvalidShare, LegacyGminyTrzaskowskiShare)

  /** `LC_PL_2020_TRZASKOWSKI_CHANGE`. */
  const Change2020Configs: ConfigTable := map[
    (Gminy, Change2020) :=
      LevelConfig(csvPath := Some(ShareDiff2020.FirstRoundCsvPath), terytCol := Some(GminaCodeColumn),
                  handler := Some(TrzaskowskiChange2020), valueCol := Some(ShareDiff2020.ChangeColumn),
                  title := Some(ShareDiff2020.ViewName),
                  preprocessor := Some(GminyGeo))
  ]

  /** `LC_PL_2025_TRZASKOWSKI_CHANGE`. */
  const Change2025Configs: ConfigTable := map[
    (Gminy, Change2025) :=
      LevelConfig(csvPath := Some(ShareDiff2025.FirstRoundCsvPath), terytCol := Some(GminaCodeColumn),
                  handler := Some(TrzaskowskiChange2025), valueCol := Some(ShareDiff2025.ChangeColumn),
                  title := Some(ShareDiff2025.ViewName),
                  preprocessor := Some(GminyGeo))
  ]

  /**
    * An entry is consistent: it names a data file, a handler and a title;
    * its code and value columns are the handler's key and value columns;
    * the handler draws at the entry's level; and the boundaries get the
    * preprocessor that level needs.
    */
  predicate Consistent(k: (AdminLevel, View), c: LevelConfig) {
    c.csvPath.Some? && c.handler.Some? && c.title.Some? &&
    c.terytCol == Some(KeyColumn(c.handler.value)) &&
    c.valueCol == Some(ValueColumn(c.handler.value)) &&
    HandlerLevel(c.handler.value) == k.0 &&
    c.preprocessor == PreprocessorFor(k.0)
  }

  /** Both first-round tables cover exactly the three views at every level. */
  lemma FirstRoundTablesComplete()
    ensures FirstRoundConfigs.Keys == FirstRoundKeys && LegacyFirstRoundConfigs.Keys == FirstRoundKeys
  {
  }

  /** A municipality entry of a first-round table is consistent under the conditions below on its handlers. */
  lemma GminyEntryConsistent(i: Indicator, g1: Handler, g2: Handler, g3: Handler)
    requires HandlerLevel(g1) == Gminy && HandlerLevel(g2) == Gminy && HandlerLevel(g3) == Gminy
    requires KeyColumn(g1) == GminaCodeColumn && KeyColumn(g2) == GminaCodeColumn && KeyColumn(g3) == GminaCodeColumn
    requires ValueColumn(g1) == FirstRound.TurnoutColumn && ValueColumn(g2) == FirstRound.InvalidShareColumn &&
             ValueColumn(g3) == FirstRound.TrzaskowskiShareColumn
    ensures Consistent((Gminy, FirstRoundView(i)), FirstRoundEntry(Gminy, i, g1, g2, g3))
  {
    match i
    case Turnout =>
    case InvalidShare =>
    case TrzaskowskiShare =>
  }

  /** Each county entry of a first-round table is consistent, whatever the municipality handlers. */
  lemma PowiatyEntryConsistent(i: Indicator, g1: Handler, g2: Handler, g3: Handler)
    ensures Consistent((Powiaty, FirstRoundView(i)), FirstRoundEntry(Powiaty, i, g1, g2, g3))
  {
    match i
    case Turnout =>
    case InvalidShare =>
    case TrzaskowskiShare =>
  }

  /** Each voivodeship entry of a first-round table is consistent, whatever the municipality handlers. */
  lemma WojewodztwaEntryConsistent(i: Indicator, g1: Handler, g2: Handler, g3: Handler)
    ensures Consistent((Wojewodztwa, FirstRoundView(i)), FirstRoundEntry(Wojewodztwa, i, g1, g2, g3))
  {
    match i
    case Turnout =>
    case InvalidShare =>
    case TrzaskowskiShare =>
  }

  /** Each national entry of a first-round table is consistent, whatever the municipality handlers. */
  lemma PolskaEntryConsistent(i: Indicator, g1: Handler, g2: Handler, g3: Handler)
    ensures Consistent((Polska, FirstRoundView(i)), FirstRoundEntry(Polska, i, g1, g2, g3))
  {
    match i
    case Turnout =>
    case InvalidShare =>
    case TrzaskowskiShare =>
  }

  /**
    * A first-round table is consistent when its municipality handlers draw
    * municipalities, keyed on the municipal code, with the view's value column.
    */
  lemma FirstRoundTableConsistent(g1: Handler, g2: Handler, g3: Handler)
    requires HandlerLevel(g1) == Gminy && HandlerLevel(g2) == Gminy && HandlerLevel(g3) == Gminy
    requires KeyColumn(g1) == GminaCodeColumn && KeyColumn(g2) == GminaCodeColumn && KeyColumn(g3) == GminaCodeColumn
    requires ValueColumn(g1) == FirstRound.TurnoutColumn && ValueColumn(g2) == FirstRound.InvalidShareColumn &&
             ValueColumn(g3) == FirstRound.TrzaskowskiShareColumn
    ensures var t := FirstRoundTable(g1, g2, g3);
            forall k :: k in t ==> Consistent(k, t[k])
  {
    var t := FirstRoundTable(g1, g2, g3);
    forall k | k in t
      ensures Consistent(k, t[k])
    {
      match k.0
      case Gminy => GminyEntryConsistent(k.1.indicator, g1, g2, g3);
      case Powiaty => PowiatyEntryConsistent(k.1.indicator, g1, g2, g3);
      case Wojewodztwa => WojewodztwaEntryConsistent(k.1.indicator, g1, g2, g3);
      case Polska => PolskaEntryConsistent(k.1.indicator, g1, g2, g3);
    }
  }

  /** Every entry of the current first-round table is consistent. */
  lemma FirstRoundConfigsConsistent()
    ensures forall k :: k in FirstRoundConfigs ==> Consistent(k, FirstRoundConfigs[k])
  {
    FirstRoundTableConsistent(GminyTurnout, GminyInvalidShare, GminyTrzaskowskiShare);
  }

  /** Every entry of the legacy first-round table is consistent. */
  lemma LegacyFirstRoundConfigsConsistent()
    ensures forall k :: k in LegacyFirstRoundConfigs ==> Consistent(k, LegacyFirstRoundConfigs[k])
  {
    FirstRoundTableConsistent(LegacyGminyTurnout, LegacyGminyInvalidShare, LegacyGminyTrzaskowskiShare);
  }

  /** The one entry of each share-change table is consistent. */
  lemma ChangeTablesConsistent()
    ensures forall k :: k in Change2020Configs ==> Consistent(k, Change2020Configs[k])
    ensures forall k :: k in Change2025Configs ==> Consistent(k, Change2025Configs[k])
  {
  }

  /**
    * For a consistent entry, a handler that succeeds gives a table holding
    * the entry's code column and value column, the two the join and the
    * merge check use.
    */
  lemma ConsistentEntryColumns(k: (AdminLevel, View), c: LevelConfig, f: Frame, second: Frame)
    requires Consistent(k, c) && HandlerResult(c.handler.value, f, second).Ok?
    ensures c.terytCol.value in HandlerResult(c.handler.value, f, second).value.cols
    ensures c.valueCol.value in HandlerResult(c.handler.value, f, second).value.cols
  {
    HandlerOutputColumns(c.handler.value, f, second);
  }

  /** Of three municipality handlers, the one for indicator `i`. */
  function GminyHandlerFor(i: Indicator, g1: Handler, g2: Handler, g3: Handler): Handler {
    match i
    case Turnout => g1
    case InvalidShare => g2
    case TrzaskowskiShare => g3
  }

  /**
    * First-round entries built with different municipality handlers differ
    * only in the municipality entries, and there only in the handler.
    */
  lemma FirstRoundEntriesDiffer(l: AdminLevel, i: Indicator, a1: Handler, a2: Handler, a3: Handler,
                                b1: Handler, b2: Handler, b3: Handler)
    ensures var c, d := FirstRoundEntry(l, i, a1, a2, a3), FirstRoundEntry(l, i, b1, b2, b3);
            (l != Gminy ==> d == c) &&
            (l == Gminy ==> c.handler == Some(GminyHandlerFor(i, a1, a2, a3)) &&
                            d == c.(handler := Some(GminyHandlerFor(i, b1, b2, b3))))
  {
  }

  /**
    * For every indicator, the legacy municipality handler gives what the
    * current one gives.
    */
  lemma LegacyGminyHandlerAgrees(i: Indicator, f: Frame, second: Frame)
    ensures HandlerResult(GminyHandlerFor(i, LegacyGminyTurnout, LegacyGminyInvalidShare, LegacyGminyTrzaskowskiShare), f, second)
         == HandlerResult(GminyHandlerFor(i, GminyTurnout, GminyInvalidShare, GminyTrzaskowskiShare), f, second)
  {
    var legacy := GminyHandlerFor(i, LegacyGminyTurnout, LegacyGminyInvalidShare, LegacyGminyTrzaskowskiShare);
    var current := GminyHandlerFor(i, GminyTurnout, GminyInvalidShare, GminyTrzaskowskiShare);
    assert IsLegacyGminy(legacy) && IsGminy(current) && GminyArgs(legacy) == GminyArgs(current);
    var a := GminyArgs(current);
    assert HandlerResult(legacy, f, second) == LegacyFirstRound.LegacyNormalizeGminyDataSpec(f, a);
    assert HandlerResult(current, f, second) == NormalizeGminyDataSpec(f, a);
    assert a in {FirstRound.GminyTurnoutArgs, FirstRound.GminyInvalidArgs,
                 FirstRound.GminyInvalidShareArgs, FirstRound.GminyTrzaskowskiShareArgs};
    LegacyFirstRound.LegacyGminyHandlersAgree(f);
  }

  /** One key of the legacy table against the same key of the current one. */
  lemma LegacyEntryAgrees(k: (AdminLevel, View), f: Frame, second: Frame)
    requires k in FirstRoundKeys
    ensures var c, d := FirstRoundConfigs[k], LegacyFirstRoundConfigs[k];
            d == c.(handler := d.handler) && d.handler.Some? && c.handler.Some? &&
            HandlerResult(d.handler.value, f, second) == HandlerResult(c.handler.value, f, second)
  {
    var c, d := FirstRoundConfigs[k], LegacyFirstRoundConfigs[k];
    var i := k.1.indicator;
    assert c == FirstRoundEntry(k.0, i, GminyTurnout, GminyInvalidShare, GminyTrzaskowskiShare);
    assert d == FirstRoundEntry(k.0, i, LegacyGminyTurnout, LegacyGminyInvalidShare, LegacyGminyTrzaskowskiShare);
    FirstRoundEntriesDiffer(k.0, i, GminyTurnout, GminyInvalidShare, GminyTrzaskowskiShare,
                            LegacyGminyTurnout, LegacyGminyInvalidShare, LegacyGminyTrzaskowskiShare);
    if k.0 == Gminy {
      LegacyGminyHandlerAgrees(i, f, second);
    } else {
      assert d == c;
    }
  }

  /**
    * The legacy table has the current table's keys and entries, except that
    * each municipality entry names the legacy handler; for every input the
    * two handlers give the same result.
    */
  lemma LegacyTableAgrees(f: Frame, second: Frame)
    ensures LegacyFirstRoundConfigs.Keys == FirstRoundConfigs.Keys
    ensures forall k :: k in FirstRoundConfigs ==>
              var c, d := FirstRoundConfigs[k], LegacyFirstRoundConfigs[k];
              d == c.(handler := d.handler) && d.handler.Some? && c.handler.Some? &&
              HandlerResult(d.handler.value, f, second) == HandlerResult(c.handler.value, f, second)
  {
    FirstRoundTablesComplete();
    forall k | k in FirstRoundConfigs
      ensures var c, d := FirstRoundConfigs[k], LegacyFirstRoundConfigs[k];
              d == c.(handler := d.handler) && d.handler.Some? && c.handler.Some? &&
              HandlerResult(d.handler.value, f, second) == HandlerResult(c.handler.value, f, second)
    {
      LegacyEntryAgrees(k, f, second);
    }
  }
}
