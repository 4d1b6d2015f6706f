# TERYT map plotter — a Dafny model of its data core

The TERYT map plotter draws Polish administrative maps. Its units are municipalities (gminy), counties (powiaty),
voivodeships (województwa) and the whole country (Polska). Regions are coloured by a value taken from an
election-results CSV. The two are joined on the TERYT code, the official identifier of each unit.

This project models the part of the plotter that decides which number ends up on which region:

- the `TerytMapPlotter` class: level check, default boundary path, preprocessing, loading with the
  per-column clean-up, the left join and its unmatched-region check, and the pre-plot column check;
- the shared helpers in `utilities.py`: the boundary-code preprocessor, `normalize_gminy_data` with its TERYT
  canonicalisation and Warsaw consolidation, `normalize_gminy_share` and `to_num`;
- every handler and preprocessor of the 2025 first-round configuration, of its older misspelled copy, and of
  the two "change in Trzaskowski support" configurations (2020 and 2025);
- the configuration tables themselves.

Modules, in dependency order:

- `Wrappers` — `Option`.
- `Text` — `strip`, `lower`, `replace(",", ".")`, `zfill`, slicing, integer rendering and the number parser
  behind `pd.to_numeric`.
- `Frames` — the table model. A cell is a number, a text or missing; a frame is its ordered column names, the
  set of numeric-dtype columns, and its rows. It holds the pandas operations the core uses (column assignment,
  selection, renaming, left and inner merge with `_x`/`_y` suffixes) and `DataFrame`, a frame updated in place.
- `Utilities`, `FirstRound`, `LegacyFirstRound`, `ShareDiff` (the pipeline shared by both change views),
  `ShareDiff2020`, `ShareDiff2025` — the handlers. Each is a function on frames (its specification) and a method
  on `DataFrame` proved equal to it. Where the source writes into the caller's frame, the method's contract
  states the caller's frame afterwards as well.
- `Handlers` — the callbacks as an enumeration, with one dispatch method proved against one dispatch function.
- `Plotter` — `AdminLevel`, `LevelConfig` and the `TerytMapPlotter` class.
- `LevelConfigs` — the configuration tables and their consistency.

Python exceptions (`KeyError`, `ValueError`, a failed `astype(int)`) are `Err` values of `Frames.Result`, with
the reason in `Frames.Error`. The second-round CSV that the change handlers read themselves is a parameter
(`second`), as are the boundary table and the first data table.

## Model

| member | source | states |
|---|---|---|
| Text.TrimStart | teryt_map_plotter.py:105 | the result is a suffix of the input; everything dropped is whitespace; the result does not start with whitespace |
| Text.TrimEnd | teryt_map_plotter.py:105 | the result is a prefix of the input; everything dropped is whitespace; the result does not end with whitespace |
| Text.StripIsClean | teryt_map_plotter.py:105 | `strip()` leaves no whitespace at either end, and stripping twice is stripping once |
| Text.Lower | process_configs/poland_2025_presidential_first_round.py:81 | same length; each character is lowered as `LowerChar` says |
| Text.LowerChar | process_configs/poland_2025_presidential_first_round.py:81 | a capital of ASCII, Latin-1, Latin Extended-A (every Polish letter), basic Greek or Cyrillic becomes its small letter; the result is never such a capital; any other character is kept |
| Text.LowerIdempotent | process_configs/poland_2025_presidential_first_round.py:81 | lowering twice is lowering once |
| Text.StripClean | teryt_map_plotter.py:105 | a text with no whitespace at either end is its own strip |
| Text.LowerStripSettles | process_configs/poland_2025_presidential_first_round.py:81 | `strip().lower()` applied to its own output changes nothing, so a voivodeship key is settled after one pass |
| Text.ReplaceComma | teryt_map_plotter.py:108 | same length; every comma becomes a dot and every other character is kept |
| Text.TrimStartReplaceComma | teryt_map_plotter.py:108 | trimming the start commutes with replacing commas |
| Text.TrimEndReplaceComma | teryt_map_plotter.py:108 | trimming the end commutes with replacing commas |
| Text.CleanTextCommutesAndSettles | teryt_map_plotter.py:108 | `replace(",", ".").strip()` equals `strip()` then replace, and is idempotent |
| Text.StripReplaceComma | utilities.py:66 | stripping commutes with replacing commas |
| Text.ReplaceCommaIdempotent | utilities.py:66 | replacing commas twice is replacing once |
| Text.Zeros | utilities.py:28 | a run of exactly `n` zero characters |
| Text.ZFill | utilities.py:28 | Python's `zfill`: the length is the larger of the length and the width; a long enough text is unchanged; an unsigned text is left-padded with zeros |
| Text.ZFillUnsigned | utilities.py:28 | for an unsigned text no wider than the width, `zfill` is the zero run followed by the text |
| Text.Take | utilities.py:9 | `s[:n]`: the first `n` characters, or all of a shorter text |
| Text.DigitChar | utilities.py:27 | a digit character whose value is the given digit |
| Text.Pow10 | utilities.py:9 | powers of ten are positive |
| Text.NatToDecimal | utilities.py:27 | `str(n)`: non-empty, all digits, no leading zero, and its digit value is `n` |
| Text.IntToDecimal | utilities.py:27 | `str(i)`: the natural rendering for non-negative `i`, a minus sign then the rendering of `-i` otherwise |
| Text.LeadingZeroValue | utilities.py:28 | a leading zero does not change a digit string's value |
| Text.ZerosValue | utilities.py:28 | any run of leading zeros does not change a digit string's value |
| Text.LeadingDigitPositive | utilities.py:27 | a digit string that does not start with 0 has a positive value |
| Text.CanonicalDecimal | utilities.py:27 | rendering the value of a canonical digit string gives that string back |
| Text.ZFillCanonical | utilities.py:27-28 | rendering then zero-filling to the original width gives back any digit string, leading zeros included |
| Text.DecimalLength | utilities.py:9 | `n` renders in at most `k` digits iff `n < 10^k` |
| Text.DropLastDigitSmall | utilities.py:9 | for a one-digit number, the first `w-1` characters of its width-`w` padding are the padding of `n/10` |
| Text.DropLastDigitLarge | utilities.py:9 | the same for a number of two or more digits that fits the width |
| Text.DropLastDigit | utilities.py:9 | `zfill(w)[:w-1]` of `str(n)` is `str(n // 10).zfill(w-1)` for every `n < 10^w` |
| Text.FindDot | teryt_map_plotter.py:110 | the position of the first dot, or the length when there is none |
| Text.ParseDigits | teryt_map_plotter.py:110 | a digit string parses to its value |
| Text.ParsePadded | utilities.py:24 | ASCII whitespace before and after a text does not change what `pd.to_numeric` makes of it |
| Text.ParseSpacedNumber | utilities.py:24 | `" 12 "` parses as 12 |
| Text.ParseInnerSpace | utilities.py:24 | a space inside the number is not skipped: `"1 2"` does not parse |
| Text.PaddedDigits | utilities.py:28 | a zero-padded rendering is a digit string whose value is the number |
| Text.ParseNegativeDigits | teryt_map_plotter.py:110 | a minus sign and digits parse to the negated value |
| Text.ParseRenderedNegative | utilities.py:44 | a zero-filled negative rendering parses back to the number |
| Text.ParseRendered | utilities.py:44 | for every integer and width, parsing the zero-filled rendering gives back the integer |
| Text.Trunc | utilities.py:26 | `astype(int)` truncates toward zero, for negative values as well |
| Frames.Column | utilities.py:24 | one cell per row: that row's cell in the column |
| Frames.Apply | utilities.py:23-29 | an element-wise map over a column, one result per row |
| Frames.Apply2 | process_configs/poland_2025_presidential_first_round.py:60 | an element-wise combination of two columns, one result per row |
| Frames.AddCol | process_configs/poland_2025_presidential_first_round.py:59 | assigning to a column keeps its place or appends it; the names are the old ones plus the new |
| Frames.WithColumn | process_configs/poland_2025_presidential_first_round.py:58-60 | `df[c] = cells`: row count kept, column `c` holds the cells, every other cell unchanged, dtype flag set, well-formedness kept |
| Frames.FirstAbsent | utilities.py:48 | none iff every requested name is present; otherwise a requested name that is absent |
| Frames.Select | utilities.py:48-50 | `df[[names]]`: succeeds iff every name is present, else `KeyError` of an absent one; the columns are exactly the names, rows keep their cells |
| Frames.Dedup | process_configs/poland_2020_presidential_share_diff.py:18 | the same names with no repetition |
| Frames.RenameColumns | process_configs/poland_2020_presidential_share_diff.py:47 | row count kept; the new names are the given ones, without duplicates |
| Frames.StrippedNames | teryt_map_plotter.py:105 | each header name is stripped, position by position |
| Frames.StripColumnNames | teryt_map_plotter.py:105 | row count kept; the names are exactly the stripped old names |
| Frames.LastIndexOf | process_configs/poland_2020_presidential_share_diff.py:47 | the last position holding a name, or -1 iff the name is absent |
| Frames.RenameRowAt | process_configs/poland_2020_presidential_share_diff.py:47 | after renaming, a name reads the cell of the last column renamed to it, and is missing if no column was |
| Frames.RenameColumnsValid | process_configs/poland_2020_presidential_share_diff.py:47 | renaming keeps a frame well formed |
| Frames.ToNumericCell | utilities.py:24 | `pd.to_numeric(errors="coerce")` of one cell: always numeric or missing; a number is unchanged |
| Frames.RatioCell | process_configs/poland_2025_presidential_first_round.py:60 | a ratio is a number iff both operands are numbers and the divisor is non-zero, and then times the divisor it gives the dividend |
| Frames.DiffCell | process_configs/poland_2025_trzaskowski_share_diff.py:40 | a difference is a number iff both operands are, and added back it gives the minuend |
| Frames.SumColAppend | utilities.py:37 | a column sum over two row runs is the sum of their sums |
| Frames.LeftSources | teryt_map_plotter.py:130-135 | every left column is carried over, suffixed `_x` when the right side has it too and it is not the shared key |
| Frames.RightSources | teryt_map_plotter.py:130-135 | every right column except a shared key is carried over, suffixed `_y` when the left side has it too |
| Frames.FillAt | teryt_map_plotter.py:130-135 | a joined row's cell under a name comes from the last source column of that name |
| Frames.LastSourceUnique | teryt_map_plotter.py:130-135 | a name given by one source only is read from that source |
| Frames.SuffixedNotPlain | teryt_map_plotter.py:130-135 | a suffixed name is never an unsuffixed column name |
| Frames.RightColumnSource | teryt_map_plotter.py:130-137 | a plain data column the boundaries lack reaches the merge under its own name, from the data side |
| Frames.LeftColumnSource | teryt_map_plotter.py:130-135 | a plain boundary column the data lacks keeps its name and its values |
| Frames.SharedColumnRenamed | teryt_map_plotter.py:130-138 | a column both sides carry, unless it is the common key, is absent from the merge under its own name, which is how "not found after merge" can happen |
| Frames.Matches | process_configs/poland_2025_trzaskowski_share_diff.py:35-39 | every matched row comes from the table and carries the key |
| Frames.Lookup | teryt_map_plotter.py:130-135 | a row found carries the key; none found means no row carries it |
| Frames.SourceNames | teryt_map_plotter.py:130-135 | the merged column names, one per source |
| Frames.LeftJoinKeepsRows | teryt_map_plotter.py:130-135 | a left merge keeps every boundary row: at least one row per boundary row, the row joined with every data row carrying its code, and an unmatched row once with the data side missing |
| Frames.LeftJoinRowsFrom | teryt_map_plotter.py:130-135 | conversely, every row of a left merge is a boundary row joined with a data row carrying its code, or an unmatched boundary row with the data side missing |
| Frames.LeftJoinBlocks | teryt_map_plotter.py:130-135 | a left merge is one block per boundary row, in boundary order |
| Frames.LeftBlock | teryt_map_plotter.py:130-135 | the block of one boundary row is never empty, and each of its rows joins the boundary row with a data row carrying its code, or stands alone when none does |
| Frames.LeftBlockContents | teryt_map_plotter.py:130-135 | a block holds the join with every data row carrying the code, and is the single unmatched row when no data row does |
| Frames.LeftJoin | teryt_map_plotter.py:130-135 | succeeds iff both key columns exist and are both numeric or both text; otherwise a `KeyError` or the dtype `ValueError`; the rows are the join of the two tables |
| Frames.InnerJoin | process_configs/poland_2025_trzaskowski_share_diff.py:35-39 | succeeds iff the key exists on both sides with the same dtype kind; otherwise a `KeyError` or the dtype `ValueError`; the rows are the inner join |
| Frames.NoMatches | teryt_map_plotter.py:130-135 | a key no row carries matches nothing |
| Frames.UniqueMatches | teryt_map_plotter.py:130-135 | with unique keys, a key matches at most the one row lookup finds |
| Frames.LeftJoinUnique | teryt_map_plotter.py:130-135 | with unique data keys, the left merge is one row per boundary row, joined with its lookup |
| Frames.UniqueJoin | teryt_map_plotter.py:130-135 | one output row per left row, filled from its lookup |
| Frames.UniqueJoinCons | teryt_map_plotter.py:130-135 | the one-per-row join of a non-empty run is its first row's join followed by the rest |
| Frames.InnerJoinRowsPaired | process_configs/poland_2025_trzaskowski_share_diff.py:35-39 | every inner-merge row comes from a left and a right row with equal keys |
| Frames.InnerJoinHasPair | process_configs/poland_2025_trzaskowski_share_diff.py:35-39 | every left and right row with equal keys gives a row of the inner merge |
| Frames.MatchIndices | process_configs/poland_2025_trzaskowski_share_diff.py:35-39 | the indices of the right rows carrying a key: all of them, in increasing order |
| Frames.KeyPairs | process_configs/poland_2025_trzaskowski_share_diff.py:35-39 | the equal-key pairs of left and right rows: each pair has equal keys, every such pair is listed, and they are ordered left row first, then right row, with no repeats |
| Frames.InnerJoinPairs | process_configs/poland_2025_trzaskowski_share_diff.py:35-39 | the inner merge is exactly one row per equal-key pair, in that order, each filled from its left and right row |
| Frames.KeyPairsSameKeys | process_configs/poland_2025_trzaskowski_share_diff.py:35-39 | the pairs depend only on the key cells of both sides |
| Frames.MatchesContains | process_configs/poland_2025_trzaskowski_share_diff.py:35-39 | every row carrying the key is among the matches |
| Frames.LeftJoinValues | teryt_map_plotter.py:130-137 | with unique data keys of the boundary key's dtype kind and a plain value column only the data has: the merge succeeds, keeps the boundary row count and boundary cells, and each row's value is its matched data row's value (missing when unmatched) |
| Frames.LastSourceFound | teryt_map_plotter.py:130-135 | a source found for a name is one of the sources |
| Frames.DataFrame.Copy | utilities.py:22 | `df.copy()`: a fresh frame with the same contents |
| Frames.DataFrame.Assign | process_configs/poland_2025_presidential_first_round.py:58-60 | in-place `df[c] = cells`: the new contents are the old with the column assigned |
| Frames.DataFrame.SetColumnNames | teryt_map_plotter.py:105 | in-place `df.columns = names`: the new contents are the old renamed |
| Frames.DataFrame.Pick | utilities.py:48-50 | `df[[names]]` as a fresh frame, or the selection's `KeyError` |
| Utilities.GminaGeoKey | utilities.py:9 | a boundary code becomes a 6-character text |
| Utilities.PreprocessGminyGeoSpec | utilities.py:7-11 | fails with `KeyError` iff `JPT_KOD_JE` is absent; otherwise only that column changes, to 6-character codes |
| Utilities.PreprocessGminyGeo | utilities.py:7-11 | writes the specification's result into the boundary frame and returns it; on error the frame is untouched |
| Utilities.GeoKeyDropsLastDigit | utilities.py:9-10 | a 7-digit boundary code loses its last digit |
| Utilities.GeoKeyOfNumber | utilities.py:9 | a numeric boundary code `n` below 10^7 becomes `str(n // 10).zfill(6)` |
| Utilities.FirstPassCode | utilities.py:23-29 | missing iff the cell does not coerce to a number; otherwise at least `teryt_len` long and parsing back to the truncated number |
| Utilities.SecondPassCode | utilities.py:44 | fails iff the cell is a non-integral number (`astype("Int64")` refuses it), with that column named |
| Utilities.SecondPassCells | utilities.py:44 | succeeds iff every cell does, cell by cell, and otherwise names the column |
| Utilities.SettledCode | utilities.py:23-44 | the canonical code is a text at least `teryt_len` long |
| Utilities.SecondPassSettles | utilities.py:23-44 | the second pass always accepts the first pass's output, giving the settled code |
| Utilities.WarsawCodeSettles | utilities.py:41-44 | the Warsaw code "146501" passes the second pass unchanged at width 6 |
| Utilities.SettledCodeIdempotent | utilities.py:23-44 | a 6-digit code is its own canonical form |
| Utilities.FirstPassInjective | utilities.py:23-29 | two whole-number codes canonicalise alike iff they are equal |
| Utilities.SpacedCodeFirstPass | utilities.py:23-29 | a 6-digit code with ASCII whitespace around it comes out of the first pass as the bare code, e.g. `" 020101"` gives "020101" |
| Utilities.GeoKeyMeetsDataCode | utilities.py:9-29 | a numeric boundary code `n` meets a numeric data code `m` iff `m = n // 10` |
| Utilities.NonWarsaw | utilities.py:42 | `df[~warszawa_mask]`: exactly the rows that are not Warsaw |
| Utilities.WarsawRows | utilities.py:33-34 | `df[warszawa_mask]`: exactly the Warsaw rows |
| Utilities.AppendAbsent | utilities.py:37-42 | the aggregated row's columns after concatenation: the old names first, then the new ones |
| Utilities.WarsawFix | utilities.py:31-42 | fails iff `Powiat` is absent or numeric (the `.str` accessor) |
| Utilities.WarsawPartition | utilities.py:33-42 | the Warsaw and non-Warsaw rows partition the table, as multisets |
| Utilities.NonWarsawAppend | utilities.py:42 | filtering distributes over concatenation |
| Utilities.WarsawSumSplit | utilities.py:37 | a column total is the Warsaw total plus the rest |
| Utilities.SumColSameCells | utilities.py:37 | equal cells give equal totals |
| Utilities.WarsawConsolidation | utilities.py:31-42 | with no Warsaw rows only `Powiat` changes (stripped, lowered); otherwise the non-Warsaw rows come first, then one row with code "146501", the fixed names, and each numeric column's Warsaw total |
| Utilities.WarsawKeepsTotals | utilities.py:31-42 | consolidation keeps every numeric column's total |
| Utilities.CoercedRatio | utilities.py:60-61 | the computed share is numeric or missing |
| Utilities.ComputedColumn | utilities.py:47-61 | succeeds iff both operand columns exist, and is then the row-wise ratio |
| Utilities.Cleaned | utilities.py:22-44 | on success the code column is present as text and every input column is present |
| Utilities.SelectOutput | utilities.py:46-53 | the computed column with the code; else the value column with the code; else the whole cleaned frame |
| Utilities.FirstPassRowsSettle | utilities.py:23-44 | every code the first pass leaves passes the second |
| Utilities.SecondPassSucceeds | utilities.py:44 | a column whose cells all pass gives a successful pass |
| Utilities.CleanedSucceeds | utilities.py:22-44 | cleaning succeeds iff the code column exists and, with the Warsaw fix, `Powiat` exists as text |
| Utilities.CleanedKeepsRows | utilities.py:22-44 | without the Warsaw fix, only the code column changes, to settled codes |
| Utilities.UnparseableCodeKept | utilities.py:23-44 | a code that does not parse is not dropped: the row stays, and its code becomes "00<NA>" |
| Utilities.WarsawCountOfLowered | utilities.py:32-33 | the Warsaw mask after `strip().lower()` selects as many rows as are Warsaw in the input |
| Utilities.WarsawTotalOfLowered | utilities.py:32-37 | and totals the same values |
| Utilities.LoweredFirstPass | utilities.py:23-32 | after the first pass and lowering, only the code and `Powiat` cells changed |
| Utilities.CleanedUnfold | utilities.py:22-44 | with the Warsaw fix, cleaning is: first pass, consolidation, second pass |
| Utilities.SecondPassLastRow | utilities.py:41-44 | the aggregated Warsaw row keeps code "146501" through the second pass |
| Utilities.WarsawFixLastRow | utilities.py:31-42 | with Warsaw rows present, one row replaces them all: it is last, has code "146501", and has their totals |
| Utilities.CleanedConsolidates | utilities.py:22-44 | the same for the whole cleaning |
| Utilities.SelectComputed | utilities.py:46-48 | the computed output has the code and the row-wise ratio, row by row |
| Utilities.WarsawShareIsRatioOfTotals | utilities.py:13-48 | Warsaw's share is the ratio of its districts' totals, not a mean of their ratios, and it is the last row |
| Utilities.NormalizeGminyData | utilities.py:13-53 | works on a copy and returns the specification's result |
| Utilities.ShareArgs | utilities.py:55-63 | the share call: code column "TERYT Gminy", width 6, no value column, computed ratio of the two columns |
| Utilities.NormalizeGminyShare | utilities.py:55-63 | returns `normalize_gminy_data` of the share call |
| Utilities.ToNumCell | utilities.py:65-66 | `to_num` of a cell is numeric or missing, and a number is unchanged |
| Utilities.ToNum | utilities.py:65-66 | `to_num` of a column, cell by cell |
| FirstRound.GminyTurnout | process_configs/poland_2025_presidential_first_round.py:38-45 | normalisation with the turnout ratio and the Warsaw fix |
| FirstRound.GminyInvalid | process_configs/poland_2025_presidential_first_round.py:47-48 | normalisation selecting the invalid-votes column |
| FirstRound.GminyInvalidShare | process_configs/poland_2025_presidential_first_round.py:50-51 | the share of invalid among valid votes |
| FirstRound.GminyTrzaskowskiShare | process_configs/poland_2025_presidential_first_round.py:53-54 | Trzaskowski's share of valid votes |
| FirstRound.GminyHandlersShape | process_configs/poland_2025_presidential_first_round.py:38-54 | all four key on "TERYT Gminy" with the Warsaw fix, and each returns exactly the code and its value column |
| FirstRound.PowiatCode | process_configs/poland_2025_presidential_first_round.py:58 | a county code becomes a text of at least 6 characters |
| FirstRound.CountyPrefix | process_configs/poland_2025_presidential_first_round.py:59 | `str[:4]` of a text is its first four characters, or all of a shorter one |
| FirstRound.PowiatyRatio | process_configs/poland_2025_presidential_first_round.py:57-66 | succeeds iff the code and both operand columns exist; keeps every column and adds "TERYT4" and the ratio |
| FirstRound.PowiatyRatioInPlace | process_configs/poland_2025_presidential_first_round.py:64-66 | writes the specification's columns into the caller's frame; on error it is untouched |
| FirstRound.PowiatyTurnout | process_configs/poland_2025_presidential_first_round.py:57-61 | returns the caller's frame with the columns added |
| FirstRound.PowiatyShare | process_configs/poland_2025_presidential_first_round.py:63-67 | a fresh two-column selection; the caller's frame keeps the added columns |
| FirstRound.PowiatyInvalidShare | process_configs/poland_2025_presidential_first_round.py:69-70 | the same for the invalid share |
| FirstRound.PowiatyTrzaskowskiShare | process_configs/poland_2025_presidential_first_round.py:72-73 | the same for Trzaskowski's share |
| FirstRound.PowiatKeyOfNumber | process_configs/poland_2025_presidential_first_round.py:58-59 | a numeric county code `n` below 10^6 gets key `str(n // 100).zfill(4)` |
| FirstRound.FloatCountyKeyShifted | process_configs/poland_2025_presidential_first_round.py:58-59 | as written, a float column's code 20100 renders "20100.0" and gets key "2010"; the model's key for it is "0201" |
| FirstRound.IntegerCountyKey | process_configs/poland_2025_presidential_first_round.py:58-59 | the integer rendering of code 20100 gives county key "0201" |
| FirstRound.PowiatKeyOfDigits | process_configs/poland_2025_presidential_first_round.py:58-59 | a 6-digit text code gets its first four digits |
| FirstRound.PowiatyShapes | process_configs/poland_2025_presidential_first_round.py:57-67 | turnout keeps every column and row; a share handler returns exactly "TERYT4" and the share, and succeeds iff the three input columns exist |
| FirstRound.PreprocessWojewodztwaGeoSpec | process_configs/poland_2025_presidential_first_round.py:76-78 | fails with `KeyError("JPT_NAZWA_")` iff that column is missing; otherwise `JPT_KOD_JE` is added at the end when absent, is no longer numeric, holds the text of each row's name, and every other cell is kept |
| FirstRound.PreprocessWojewodztwaGeo | process_configs/poland_2025_presidential_first_round.py:76-78 | writes that into the boundary frame and returns it |
| FirstRound.WojewodztwaRatio | process_configs/poland_2025_presidential_first_round.py:81-87 | succeeds iff "Województwo" exists as text and both operands exist; keeps every column and adds the ratio |
| FirstRound.WojewodztwaRatioInPlace | process_configs/poland_2025_presidential_first_round.py:86-87 | writes those columns into the caller's frame |
| FirstRound.WojewodztwaTurnout | process_configs/poland_2025_presidential_first_round.py:80-83 | returns the caller's frame with the columns written |
| FirstRound.WojewodztwaShare | process_configs/poland_2025_presidential_first_round.py:85-88 | a fresh two-column selection; the caller's frame keeps the written columns |
| FirstRound.WojewodztwaInvalidShare | process_configs/poland_2025_presidential_first_round.py:90-91 | the same for the invalid share |
| FirstRound.WojewodztwaTrzaskowskiShare | process_configs/poland_2025_presidential_first_round.py:93-94 | the same for Trzaskowski's share |
| FirstRound.WojewodztwoKeySettles | process_configs/poland_2025_presidential_first_round.py:81 | the voivodeship key is idempotent |
| FirstRound.WojewodztwoKeysMeet | process_configs/poland_2025_presidential_first_round.py:77-81 | a boundary name meets a data name iff its text equals the data name stripped and lowered, so a boundary name holding a capital letter meets no data row |
| FirstRound.WojewodztwaShareRows | process_configs/poland_2025_presidential_first_round.py:85-88 | one output row per input row, holding the settled name and the row's ratio |
| FirstRound.ToNumericColumns | process_configs/poland_2025_presidential_first_round.py:98-99 | the two columns are coerced to numbers and nothing else changes |
| FirstRound.PolskaSpec | process_configs/poland_2025_presidential_first_round.py:97-107 | succeeds iff both columns exist |
| FirstRound.Polska | process_configs/poland_2025_presidential_first_round.py:97-107 | coerces the caller's two columns in place and returns a fresh one-row table; on error the caller's frame is untouched |
| FirstRound.PolskaTurnout | process_configs/poland_2025_presidential_first_round.py:97-101 | the national turnout, eligible column coerced first |
| FirstRound.PolskaShare | process_configs/poland_2025_presidential_first_round.py:103-107 | the national share, numerator coerced first |
| FirstRound.PolskaInvalidShare | process_configs/poland_2025_presidential_first_round.py:109-110 | the national invalid share |
| FirstRound.PolskaTrzaskowskiShare | process_configs/poland_2025_presidential_first_round.py:112-113 | the national Trzaskowski share |
| FirstRound.SumOfConverted | process_configs/poland_2025_presidential_first_round.py:98-100 | summing a coerced column is summing its coerced cells |
| FirstRound.PolskaIsRatioOfTotals | process_configs/poland_2025_presidential_first_round.py:97-107 | the national table is one row with code "0" and the ratio of the two column totals |
| LegacyFirstRound.LegacySelectOutput | process_configs/poland_2025_pesidential_first_round.py:78-84 | `ValueError` exactly when neither a computed nor a value column is asked for; otherwise two columns, the code first |
| LegacyFirstRound.LegacyVersusCurrent | process_configs/poland_2025_pesidential_first_round.py:45-84 | the two copies agree when a value is asked for; otherwise the legacy one fails where the current one returns the whole table |
| LegacyFirstRound.LegacyNormalizeGminyData | process_configs/poland_2025_pesidential_first_round.py:45-84 | works on a copy and returns the legacy specification's result |
| LegacyFirstRound.LegacyNormalizeGminyShare | process_configs/poland_2025_pesidential_first_round.py:86-94 | the legacy share call |
| LegacyFirstRound.GminyTurnout | process_configs/poland_2025_pesidential_first_round.py:97-104 | the legacy turnout handler |
| LegacyFirstRound.GminyInvalid | process_configs/poland_2025_pesidential_first_round.py:106-107 | the legacy invalid-votes handler |
| LegacyFirstRound.GminyInvalidShare | process_configs/poland_2025_pesidential_first_round.py:109-110 | the legacy invalid-share handler |
| LegacyFirstRound.GminyTrzaskowskiShare | process_configs/poland_2025_pesidential_first_round.py:112-113 | the legacy Trzaskowski-share handler |
| LegacyFirstRound.LegacyGminyHandlersAgree | process_configs/poland_2025_pesidential_first_round.py:97-113 | every legacy municipality handler asks for a value, so each equals its current namesake |
| ShareDiff.CodeArgs | process_configs/poland_2025_trzaskowski_share_diff.py:21-30 | the normalisation call: the given code column, the Warsaw fix, width 6, no value asked for |
| ShareDiff.ShareColumn | process_configs/poland_2025_trzaskowski_share_diff.py:32-33 | the round's share, row by row |
| ShareDiff.WithShare | process_configs/poland_2025_trzaskowski_share_diff.py:32-33 | succeeds iff the candidate and valid-votes columns exist; adds the share and keeps every column |
| ShareDiff.ShareChange | process_configs/poland_2025_trzaskowski_share_diff.py:9-41 | strips the caller's header names in place and returns the specification's result |
| ShareDiff.JoinRounds | process_configs/poland_2025_trzaskowski_share_diff.py:32-40 | the share, join and subtraction on two normalised rounds |
| ShareDiff.MergedColumns | process_configs/poland_2025_trzaskowski_share_diff.py:35-39 | the merged columns are the key and `share_r1` from the left and `share_r2` from the right |
| ShareDiff.ChangeFrameRowsPaired | process_configs/poland_2025_trzaskowski_share_diff.py:35-40 | every output row comes from a first-round and a second-round row with equal codes, and its change is their difference |
| ShareDiff.ChangeFrameHasPairs | process_configs/poland_2025_trzaskowski_share_diff.py:35-40 | every such pair gives an output row |
| ShareDiff.ChangeFramePairs | process_configs/poland_2025_trzaskowski_share_diff.py:35-40 | the change table has one row per equal-code pair of the two selections, in merge order, each with both shares and their difference |
| ShareDiff.OnePerPairOnRounds | process_configs/poland_2025_trzaskowski_share_diff.py:32-40 | that one-row-per-pair form carries over from the selections to the normalised rounds |
| ShareDiff.OnePerPairCarriesOver | process_configs/poland_2020_presidential_share_diff.py:47 | renaming the code and keeping the change keeps one row per pair |
| ShareDiff.SelectedOnePerPair | process_configs/poland_2025_trzaskowski_share_diff.py:41 | selecting code and change keeps one row per pair |
| ShareDiff.PairsOnRounds | process_configs/poland_2025_trzaskowski_share_diff.py:32-40 | the pairing carries over from the selections to the normalised rounds |
| ShareDiff.RoundsChangePairs | process_configs/poland_2025_trzaskowski_share_diff.py:32-40 | succeeds iff both rounds have the candidate and valid-votes columns and their code columns have the same dtype kind; rows are exactly the code-matched pairs, one row per pair in merge order, each with second-round share minus first-round share |
| ShareDiff.ShareChangePairs | process_configs/poland_2025_trzaskowski_share_diff.py:9-40 | the same from the raw tables, given both normalise, including one row per pair |
| ShareDiff.SelectedChangePairs | process_configs/poland_2025_trzaskowski_share_diff.py:41 | selecting code and change keeps the pairing |
| ShareDiff.SelectedRound | process_configs/poland_2025_trzaskowski_share_diff.py:36-37 | a round's code-and-share selection succeeds and is its share column |
| ShareDiff.NormalizedHasKey | process_configs/poland_2025_trzaskowski_share_diff.py:21-30 | a normalised round has its code column, as text, so the two rounds always merge |
| ShareDiff.NormalizeAndJoin | process_configs/poland_2025_trzaskowski_share_diff.py:21-41 | normalising both rounds, then computing, joining and differencing the shares, gives the specified change table on a fresh frame |
| ShareDiff.MergedNames | process_configs/poland_2025_trzaskowski_share_diff.py:35-39 | the merge's names are exactly key, `share_r1`, `share_r2` |
| ShareDiff.ChangeFrameColumns | process_configs/poland_2025_trzaskowski_share_diff.py:35-40 | the merge succeeds and the change column is appended |
| ShareDiff.PairsCarryOver | process_configs/poland_2020_presidential_share_diff.py:47 | keeping code and change under a new code name keeps the pairing |
| ShareDiff.JoinedRow | process_configs/poland_2025_trzaskowski_share_diff.py:35-39 | a joined row has the left code and share and the right share |
| ShareDiff2020.RenamedKey | process_configs/poland_2020_presidential_share_diff.py:47 | "Kod TERYT" becomes "TERYT Gminy" and every other name is kept |
| ShareDiff2020.RenameAndPick | process_configs/poland_2020_presidential_share_diff.py:47 | renaming the code column and keeping it with the change column gives the specified output on a fresh frame |
| ShareDiff2020.Handler | process_configs/poland_2020_presidential_share_diff.py:9-47 | strips the caller's header names and returns the specification's result |
| ShareDiff2020.RenamedRows | process_configs/poland_2020_presidential_share_diff.py:47 | the rename and selection give code and change, row by row |
| ShareDiff2020.HandlerPairsRounds | process_configs/poland_2020_presidential_share_diff.py:9-47 | succeeds iff both rounds have the candidate and valid-votes columns; the output is "TERYT Gminy" and the change, exactly one row per code-matched pair of rounds, in merge order |
| ShareDiff2025.Handler | process_configs/poland_2025_trzaskowski_share_diff.py:9-41 | strips the caller's header names and returns the specification's result |
| ShareDiff2025.HandlerPairsRounds | process_configs/poland_2025_trzaskowski_share_diff.py:9-41 | succeeds iff both rounds have the candidate and valid-votes columns; the output is "TERYT Gminy" and the change, exactly one row per code-matched pair of rounds, in merge order |
| Handlers.RunHandler | teryt_map_plotter.py:116 | calling any configured handler gives its specification's result and its effect on the caller's frame |
| Handlers.MunicipalDispatch | process_configs/poland_2025_presidential_first_round.py:38-54 | each municipality handler of either copy returns its own normalisation of the frame with its own arguments and leaves the caller's frame alone |
| Handlers.HandlerOutputColumns | teryt_map_plotter.py:116-137 | a handler that succeeds returns its key column and its value column |
| Handlers.PreprocessorResult | teryt_map_plotter.py:80-84 | a preprocessor that succeeds keeps the rows and leaves a `JPT_KOD_JE` column |
| Handlers.RunPreprocessor | teryt_map_plotter.py:80-84 | a preprocessor updates the boundary frame in place to its specification's result |
| Plotter.ParseLevel | teryt_map_plotter.py:31-70 | a level name parses iff it is one of the four values, and "Invalid level" otherwise |
| Plotter.DefaultPathsDistinct | teryt_map_plotter.py:72-76 | the default path is `gis_boundaries/<level>/<level>.shp`, and different levels get different paths |
| Plotter.LoadColumn | teryt_map_plotter.py:108-112 | one column cleaned (commas to dots, stripped) then converted when every cell parses; other columns unchanged |
| Plotter.CleanColumns | teryt_map_plotter.py:106-114 | the clean-up keeps the columns and row count |
| Plotter.FirstNumeric | teryt_map_plotter.py:106-114 | the first already-numeric column, where `.str` raises and the loop is abandoned |
| Plotter.SameColumnLoadsAlike | teryt_map_plotter.py:108-112 | a column's clean-up depends only on that column |
| Plotter.ReachedStep | teryt_map_plotter.py:106-112 | the columns the loop reaches are the first and those it reaches after it |
| Plotter.CleanColumnsCells | teryt_map_plotter.py:106-114 | every column before the first numeric one is cleaned; the rest are untouched |
| Plotter.CleanColumnsNumeric | teryt_map_plotter.py:106-114 | a reached column becomes numeric iff all its cells parse; the others keep their dtype |
| Plotter.LoadedFrameCells | teryt_map_plotter.py:100-114 | loading is stripping the header names and then the clean-up |
| Plotter.FirstNumericSame | teryt_map_plotter.py:106-114 | the stopping point depends only on the dtypes |
| Plotter.LoadedTextIsToNum | teryt_map_plotter.py:108-110 | a converted text cell is what `to_num` gives, and a number |
| Plotter.LoadColumnValid | teryt_map_plotter.py:108-112 | one step of the loop leaves every numeric-flagged column holding only numbers and NaN |
| Plotter.CleanColumnsValid | teryt_map_plotter.py:106-114 | the whole loop keeps the dtype flags honest |
| Plotter.LoadedValid | teryt_map_plotter.py:100-114 | the loaded frame has honest dtype flags when the given frame has |
| Plotter.LoadColumnInPlace | teryt_map_plotter.py:108-112 | the in-place step matches its function |
| Plotter.CleanAll | teryt_map_plotter.py:106-114 | the loop over the columns matches the clean-up function |
| Plotter.LoadFrame | teryt_map_plotter.py:100-116 | loading then calling the handler gives the handler's result on the loaded frame |
| Plotter.MissingCount | teryt_map_plotter.py:140-144 | at most the row count, and zero iff no value is missing |
| Plotter.MergeOutcome | teryt_map_plotter.py:137-144 | success iff the value column exists and no value is missing; otherwise the count of regions without a value |
| Plotter.UnmatchedCount | teryt_map_plotter.py:140-144 | at most the number of regions |
| Plotter.JoinedCellMatched | teryt_map_plotter.py:130-140 | with unique data codes, a region has a value iff a data row has its code and a value |
| Plotter.CountsAgree | teryt_map_plotter.py:140-144 | the missing count is the unmatched-region count |
| Plotter.MergeFindsRegions | teryt_map_plotter.py:130-144 | with unique data codes of the boundary code's dtype kind, the merge keeps one row per region and fails iff some region is unmatched, reporting how many |
| Plotter.TerytMapPlotter.constructor | teryt_map_plotter.py:59-78 | the given level, the given or default path, the given or default code column (`JPT_KOD_JE`), the given boundaries, nothing loaded |
| Plotter.TerytMapPlotter.ApplyPreprocessor | teryt_map_plotter.py:80-84 | the boundaries become the preprocessor's result; nothing else changes |
| Plotter.TerytMapPlotter.LoadData | teryt_map_plotter.py:86-118 | the data becomes the handler's result on the loaded frame and the code column is recorded; on error nothing changes |
| Plotter.TerytMapPlotter.Keep | teryt_map_plotter.py:116-118 | a handler result that succeeds becomes the data and the code column is recorded; a failure is passed on and neither changes; nothing else changes |
| Plotter.TerytMapPlotter.Merge | teryt_map_plotter.py:120-144 | the merged table is the left join, which fails on a numeric code column against a text one; the outcome is `MergeOutcome`; nothing else changes |
| Plotter.TerytMapPlotter.Plot | teryt_map_plotter.py:146-163 | an unmerged plotter plots its boundaries; fails iff a value column is named and absent |
| LevelConfigs.FirstRoundViewNamesDistinct | process_configs/poland_2025_presidential_first_round.py:24-181 | the three first-round view names differ |
| LevelConfigs.FirstRoundTablesComplete | process_configs/poland_2025_presidential_first_round.py:115-211 | both first-round tables have exactly the three views at each of the four levels |
| LevelConfigs.FirstRoundTableConsistent | process_configs/poland_2025_presidential_first_round.py:115-211 | built from municipality handlers keyed on "TERYT Gminy", every entry's code and value columns are its handler's, at the entry's level, with that level's preprocessor |
| LevelConfigs.FirstRoundConfigsConsistent | process_configs/poland_2025_presidential_first_round.py:115-211 | every entry of the current table is consistent |
| LevelConfigs.LegacyFirstRoundConfigsConsistent | process_configs/poland_2025_pesidential_first_round.py:174-270 | every entry of the legacy table is consistent |
| LevelConfigs.ChangeTablesConsistent | process_configs/poland_2020_presidential_share_diff.py:49-57 | the entry of each share-change table is consistent |
| LevelConfigs.ConsistentEntryColumns | teryt_map_plotter.py:116-137 | for a consistent entry, a successful handler's table holds the entry's code and value columns |
| LevelConfigs.FirstRoundEntriesDiffer | process_configs/poland_2025_presidential_first_round.py:115-211 | entries built from different municipality handlers differ only in the municipality handler |
| LevelConfigs.LegacyGminyHandlerAgrees | process_configs/poland_2025_pesidential_first_round.py:97-113 | each legacy municipality handler in the table gives what the current one gives |
| LevelConfigs.LegacyEntryAgrees | process_configs/poland_2025_pesidential_first_round.py:174-270 | one key of the legacy table matches the current one up to an equivalent handler |
| LevelConfigs.LegacyTableAgrees | process_configs/poland_2025_pesidential_first_round.py:174-270 | the legacy table equals the current one up to equivalent handlers |

## Left out

- Reading the boundary file and the CSVs, `to_crs`, matplotlib and `print` are I/O. The tables they give are
  parameters: the boundaries go to the plotter's constructor, the first data table to `LoadData`, and the
  second-round table of the change handlers to `second`.
- `plot_it.py` and `process_configs/boundaries.py` are not part of this model: they hold the command-line
  prompts and the boundary-only table.
- `Plotter.TerytMapPlotter.Plot`: the drawing, colour map and title are left out; only the column check before
  drawing is modelled.
- `Frames.RatioCell`: a division by zero gives a missing cell, where pandas gives an infinity. Numbers are exact
  reals, not floating point.
- `Frames.ToNumericCell`: the parser behind it (`Text.ParseNumber`) skips ASCII whitespace around the number
  as pandas does, but does not accept "nan", "inf", exponents, digit grouping, or an empty or
  whitespace-only text. Such a cell becomes missing, and a column holding one is treated as unconvertible,
  where pandas reads these as numbers or NaN.
- `Frames.Cell`: the dtype of a column is a flag in the frame (numeric or not). pandas' own inference is
  abstracted, including integer versus float. A numeric code is rendered as an integer, which is the corrected form of the county key under "## Findings".
- `Text.Lower`: only the capitals `Text.LowerChar` names are lowered. Capitals of other blocks are kept, for
  example Latin Extended-B, accented Greek, Armenian and Georgian. Python lowers these too. Python also maps
  'İ' (U+0130) to two characters and 'Σ' to 'ς' or 'σ' depending on its place in a word. The model keeps both
  unchanged, so it preserves length where Python may not.
- `Frames.LeftJoin`: pandas raises the dtype `ValueError` only when its type inference finds one key column
  string-like and the other not. The model raises whenever exactly one key column is numeric, including for a
  text column with no rows or with only missing cells, which pandas may let through.
- `Frames.InnerJoin`: the same dtype abstraction as `Frames.LeftJoin`.
- `Text.Trunc`: integers are unbounded. The source's `astype(int)` and `astype("Int64")` hold 64-bit
  integers. A code beyond that range, which the source's cast cannot keep, is kept exactly here.
- `Utilities.FirstPassCode`: the same unbounded integer as `Text.Trunc`. The int64 range of `astype(int)` is not modelled.
- `Utilities.SecondPassCode`: the same for `astype("Int64")`.
- `Frames.RenameColumns`: duplicate names after stripping or renaming are merged into one (the last column of
  that name wins). pandas keeps duplicate columns.
- The handlers check every column they need before changing anything. Where the source raises `KeyError`
  halfway through a handler, the model leaves the caller's frame unchanged, while the source may have written
  some columns already.
- The legacy copy's own `preprocess_gminy_geo` is the same code as `utilities.preprocess_gminy_geo`. Both
  tables therefore name `Handlers.GminyGeo`.
- `LevelConfigs.FirstRoundTablesComplete`: states the key set, not the count of entries.
- The two share-change view names are not proved distinct from each other or from the first-round names. Each
  change view lives in its own table, so this proof is not needed for the tables to be well defined.
- Callbacks are an enumeration (`Handlers.Handler`, `Handlers.Preprocessor`), not arbitrary functions. Only the
  handlers and preprocessors the configurations name can be modelled this way.

## Findings

| source | as written | input that shows it | evidently intended | confidence | as-written member | corrected member |
|---|---|---|---|---|---|---|
| process_configs/poland_2025_presidential_first_round.py:58-59 | the county key is `str(code).zfill(6)[:4]` of the numeric code with no cast to integer, so a float column renders 20100 as "20100.0" | code 020100 in a "TERYT Powiatu" column that also holds a missing or non-numeric cell, so pandas stores it as float: "20100.0"[:4] is "2010" | "0201", the key of county 02 01 | not executed | FirstRound.FloatCountyKeyShifted | FirstRound.PowiatKeyOfNumber |
