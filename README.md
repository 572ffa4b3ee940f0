# Gantt chart generator: a verified model of its core

This Dafny project models the core of `gantt_generic.py`. That file turns a
spreadsheet of tasks into a Gantt chart. The model covers five parts of it:

- **Date parsing** (`parse_date`). A cell becomes a calendar date or nothing.
  Text is trimmed and then tried against six fixed patterns, in order:
  `YYYY-MM-DD`, `DD/MM/YYYY`, `DD-MM-YYYY`, `YYYY/MM/DD`, `DD.MM.YYYY` and
  `YYYY.MM.DD`. Calendar-invalid dates such as 31/02 are refused. Dates are a
  `(year, month, day)` datatype with a validity predicate and a day number,
  the proleptic Gregorian ordinal.
- **Column resolution** (`find_column` and the column mapping). Headers are
  matched case-insensitively after trimming. Synonyms are tried in list order.
  When one of the four fields `categorie`, `tache`, `debut` and `fin` does not
  resolve, the load fails. The failure names the missing fields in that fixed
  order and lists every available header.
- **Normalisation** (the steps of `load_and_validate_data` after the file is
  decoded). Every row is read and rows without both dates or without a task
  name are dropped. The inclusive day count `duree_jours` is derived. The rows
  are sorted by (category, start), and an empty result is its own error.
  Rows whose end is before their start are kept, as the code keeps them (no
  filter on the dates' order at gantt_generic.py:112-114); their day count is
  zero or less.
- **Colours** (`generate_color_palette` and the colour map). A fixed palette
  of 15 colours is repeated cyclically. Each category gets the next colour, in
  the order categories are first seen.
- **Layout** (the geometry inside `generate_gantt_svg`). This covers:
  - the canvas size;
  - the date span, raised to at least one day;
  - between 4 and 12 grid intervals and the day each grid line is labelled with;
  - one 36-pixel band per task, holding its category marker, task label, bar
    position, bar width (at least 4), colour and day-count text;
  - the legend.

  Ratios computed with true division are exact `real`s. Integer quantities
  stay `int`s.

  The bar of a task is one day wider than its share of the range, because
  the day count is inclusive while the range is not. So a task that spans
  the whole range always ends to the right of the last grid line, and when
  the range is under 22 days its bar runs past the right edge of the canvas
  (`Layout.WholeSpanBar`, `Layout.BarPastCanvas`). For example, a two-day
  task on a one-day range is 1760 px wide on a 1200 px canvas.

The files follow the program's structure:

| file | module | models |
|---|---|---|
| `wrappers.dfy` | `Wrappers` | `Option` and `Result` |
| `text.dfy` | `Text` | `str.strip`, `str.lower`, string order, label truncation, `join` |
| `dates.dfy` | `Dates` | calendar dates, validity, day numbers, date order |
| `date_parser.dfy` | `DateParser` | cells, the six patterns, `parse_date` |
| `dicts.dfy` | `Dicts` | dictionaries built from key/value pairs (the last occurrence of a key wins) |
| `columns.dfy` | `Columns` | `find_column`, the column mapping and its diagnostic |
| `normalize.dfy` | `Normalize` | the filtering, duration, sort and error results of the load |
| `palette.dfy` | `Palette` | `generate_color_palette`, `unique()`, the colour map |
| `layout.dfy` | `Layout` | the geometry of `generate_gantt_svg` |

Code that changes variables step by step is modelled by methods with loops:
- `parse_date` is `DateParser.ParseDate`;
- `find_column` is `Columns.FindColumn` and `Columns.BuildIndex`;
- the three loops of `generate_gantt_svg` are `Layout.DrawGrid`,
  `Layout.DrawBands` and `Layout.DrawLegend`, called by
  `Layout.GenerateGanttSvg`.

Each method is proved equal to a specification function, and the properties
are proved about those functions. The load is a chain of rebindings in the
source, so it is modelled by pure sequence functions.

## Model

| member | source | states |
|---|---|---|
| Text.IsSpace | gantt_generic.py:59 | definition, no contract: the characters `str.strip()` removes, Python's `str.isspace()` set |
| Text.Strip | gantt_generic.py:59 | `strip()` never lengthens the text, and text made only of whitespace becomes empty |
| Text.StripIsSlice | gantt_generic.py:59 | `strip()` returns the contiguous middle of the text, with only whitespace removed on each side and no whitespace left at either end |
| Text.StripEnds | gantt_generic.py:59 | the stripped text neither starts nor ends with whitespace |
| Text.StripKeeps | gantt_generic.py:59 | every character of the stripped text comes from the text, so a property all its characters have still holds after `strip()` |
| Text.StripIdempotent | gantt_generic.py:59 | stripping twice is stripping once |
| Text.StripNoSpace | gantt_generic.py:106-107 | text without whitespace is left unchanged by `str.strip()` |
| Text.LowerChar | gantt_generic.py:75 | a lowered character is never an ASCII capital, and `A`..`Z` become `a`..`z` |
| Text.Lower | gantt_generic.py:75 | `lower()` keeps the length and maps every character on its own |
| Text.LowerIdempotent | gantt_generic.py:77 | lowering twice is lowering once, so a lowered synonym compares with lowered headers |
| Text.StrLess | gantt_generic.py:120 | definition, no contract: Python's `<` on strings, code point by code point with a proper prefix first; its properties are the three lemmas below |
| Text.StrLessIrreflexive | gantt_generic.py:120 | the string order the sort uses is irreflexive |
| Text.StrLessTransitive | gantt_generic.py:120 | that order is transitive |
| Text.StrLessTrichotomy | gantt_generic.py:120 | that order is total and asymmetric |
| Text.Truncate | gantt_generic.py:228 | a label up to the limit is unchanged; a longer one becomes its first `n` characters followed by `...` |
| Text.TruncateBounds | gantt_generic.py:228 | a cut label is at most `n + 3` long; it is longer than the original exactly when that exceeds the limit by one or two characters (a 26- or 27-character category becomes 28), and shorter exactly when it exceeds it by more than three |
| Text.Join | gantt_generic.py:102 | joining no parts gives the empty text and joining one part gives that part |
| Text.JoinSnoc | gantt_generic.py:102 | joining one more part appends the separator and that part |
| Text.JoinContains | gantt_generic.py:102 | every part appears as a piece of the joined text |
| Dates.DaysInMonth | gantt_generic.py:66 | every month has 28 to 31 days |
| Dates.Valid | gantt_generic.py:66 | definition, no contract: the dates `datetime` accepts, year 1 to 9999, month 1 to 12, day within the month |
| Dates.DayNumber | gantt_generic.py:117 | the proleptic Gregorian ordinal (`date.toordinal()`): at least 1, and day `d` of January of year 1 is day `d` |
| Dates.DayWithinYear | gantt_generic.py:117 | a date's day number lies inside its year's block of days |
| Dates.DayNumberOrder | gantt_generic.py:117 | one date is earlier than another exactly when its day number is smaller |
| Dates.DayNumberInjective | gantt_generic.py:236-237 | two dates have the same day number exactly when they are equal |
| Dates.BeforeTotal | gantt_generic.py:120 | date order is a strict total order |
| DateParser.DigitRun | gantt_generic.py:66 | a field is the longest run of digits at the start of the text |
| DateParser.IsYearField | gantt_generic.py:60-66 | definition, no contract: `%Y` is read here as exactly four digits |
| DateParser.IsMonthField | gantt_generic.py:60-66 | a `%m` field is digits whose value is 1 to 12 |
| DateParser.IsDayField | gantt_generic.py:60-66 | a `%d` field is digits whose value is 1 to 31 |
| DateParser.ReadDate | gantt_generic.py:66 | three fields read as a date exactly when they spell that date and the date is valid |
| DateParser.ParseWith | gantt_generic.py:60-66 | definition, no contract: one `strptime` attempt, splitting at the end of the first two digit runs; what it accepts is stated by the two lemmas below |
| DateParser.ParseWithSound | gantt_generic.py:66 | a pattern accepts text only when the text is written in that pattern and the date is valid |
| DateParser.ParseWithComplete | gantt_generic.py:66 | every valid date written in a pattern is accepted by that pattern |
| DateParser.SplitsAt | gantt_generic.py:66 | with digit fields and non-digit separators, the parser's digit runs end exactly at the two separators |
| DateParser.ReadsAt | gantt_generic.py:66 | text with separators at given positions around fields spelling a valid date is read as that date |
| DateParser.FirstParse | gantt_generic.py:64-68 | definition, no contract: the patterns tried in order, the first success returned; stated by the two lemmas below |
| DateParser.FirstParseFirstMatch | gantt_generic.py:64-68 | the result is the date read by the first pattern that accepts the text |
| DateParser.FirstParseNone | gantt_generic.py:64-70 | there is no result exactly when no pattern accepts the text |
| DateParser.ParsedDate | gantt_generic.py:47-70 | definition, no contract: a blank or number cell gives nothing, a typed date gives itself, text is stripped and tried against the six patterns; stated by ParseDate and the lemmas that follow |
| DateParser.ParseDate | gantt_generic.py:47-70 | the loop over the patterns with early return gives the specified result |
| DateParser.Format | gantt_generic.py:60-62 | a date written in any pattern is ten characters long |
| DateParser.ParseFormat | gantt_generic.py:60-66 | a date written in a pattern is read back by that pattern |
| DateParser.ParseOtherFormat | gantt_generic.py:60-66 | a date written in one pattern is refused by every other pattern |
| DateParser.ParsedDateRoundTrip | gantt_generic.py:47-70 | a date written in any of the six patterns parses back to that date |
| DateParser.EarlierFormatsRefuse | gantt_generic.py:64-68 | every pattern tried before the one that wrote a date refuses it |
| DateParser.ParsedDateIgnoresSpace | gantt_generic.py:59 | surrounding whitespace does not change the result |
| DateParser.DayFirstExample | gantt_generic.py:60-66 | `01/02/2025` is 1 February 2025, not 2 January |
| DateParser.LeapDayExample | gantt_generic.py:60-66 | `2024-02-29` is a valid date |
| DateParser.InvalidDayExample | gantt_generic.py:60-70 | `31/02/2025` gives no date |
| DateParser.InvalidDaySlash | gantt_generic.py:60-66 | the two patterns with `/` split `31/02/2025` into its three fields and refuse it |
| Dicts.ZipMapValues | gantt_generic.py:75 | every value of a dictionary built from pairs is one of the values paired |
| Dicts.ZipMapKeys | gantt_generic.py:75 | the dictionary's keys are exactly the keys listed |
| Dicts.ZipMapLast | gantt_generic.py:75 | a repeated key keeps the value of its last occurrence |
| Dicts.ZipMapDistinct | gantt_generic.py:172 | with distinct keys, each key maps to the value paired with it |
| Columns.HeaderKey | gantt_generic.py:75 | a header's key is no longer than the header, holds no ASCII capital and has no whitespace at either end |
| Columns.HeaderKeys | gantt_generic.py:75 | every header is keyed by its lowered, trimmed form |
| Columns.HeaderIndex | gantt_generic.py:75 | every value of the index is one of the headers |
| Columns.HeaderIndexSpec | gantt_generic.py:75 | a key is present exactly when some header has that form; its header is the last such header |
| Columns.LastIndexOf | gantt_generic.py:75 | the position found holds the key and no later position does |
| Columns.BuildIndex | gantt_generic.py:75 | the dictionary comprehension builds that index |
| Columns.ColumnFor | gantt_generic.py:73-79 | a column `find_column` returns is one of the headers, and an empty synonym list finds nothing |
| Columns.FindColumn | gantt_generic.py:73-79 | the loop over synonyms with early return gives the specified column |
| Columns.FirstSynonymSpec | gantt_generic.py:76-79 | no column is found exactly when no lowered synonym is a key; otherwise the answer is the header of the first synonym that is a key |
| Columns.ColumnForNone | gantt_generic.py:76-79 | `find_column` returns None exactly when no synonym matches any header |
| Columns.ColumnForSome | gantt_generic.py:76-78 | a found column is a header whose key equals the first matching synonym, lowered, and no earlier synonym matches |
| Columns.MatchesIsKey | gantt_generic.py:77 | a lowered synonym is a key exactly when some header matches it |
| Columns.Unresolved | gantt_generic.py:100 | the missing list has at most four fields, in the fixed key order, and holds each field exactly when its synonyms find no column |
| Columns.Pick | gantt_generic.py:100 | the missing list holds exactly the unresolved fields, in the fixed field order |
| Columns.Resolve | gantt_generic.py:92-102 | the mapping fails exactly when some field is unresolved, naming those fields; otherwise every field has the column `find_column` gives it |
| Columns.ResolveFailsExactly | gantt_generic.py:92-101 | the mapping fails exactly when one of the four synonym lists matches no header |
| Columns.UnresolvedNamesMissingFields | gantt_generic.py:100 | the missing fields are those without a match, listed without repeats in the order categorie, tache, debut, fin |
| Normalize.ColumnIndex | gantt_generic.py:106-109 | a column is read from the first header with the resolved name |
| Normalize.CellText | gantt_generic.py:106-107 | a date cell read as text shows ten characters that `parse_date` reads back as the same date |
| Normalize.Extract | gantt_generic.py:105-110 | each row gives its category and task, read as text and trimmed, and its two dates, parsed |
| Normalize.DropUndated | gantt_generic.py:113 | rows with both dates are kept, as many times as they occur, and no others |
| Normalize.DropUnnamed | gantt_generic.py:114 | rows whose task is neither empty nor `nan` are kept, and no others |
| Normalize.WithDuration | gantt_generic.py:117 | every row gets the day count from its start to its end, plus one |
| Normalize.KeyLessIrreflexive | gantt_generic.py:120 | the (category, start) key order is irreflexive |
| Normalize.KeyLessTransitive | gantt_generic.py:120 | the (category, start) key order is transitive |
| Normalize.Insert | gantt_generic.py:120 | inserting adds exactly one occurrence of the row |
| Normalize.SortTasks | gantt_generic.py:120 | the sort is a permutation of its input |
| Normalize.InsertSorted | gantt_generic.py:120 | inserting into a sorted list keeps it sorted |
| Normalize.SortTasksSorted | gantt_generic.py:120 | the sort's output is sorted by (category, start) |
| Normalize.InsertLast | gantt_generic.py:120 | a row no earlier than every other row goes last |
| Normalize.SortTasksKeepsSorted | gantt_generic.py:120 | a list already in order is left exactly as it is |
| Normalize.SortedMeansOrdered | gantt_generic.py:120 | in a sorted list, different categories appear in increasing order |
| Normalize.KeptAreDatedAndNamed | gantt_generic.py:113-114 | the rows kept are exactly the rows with both dates and a task name |
| Normalize.AdmittedExactly | gantt_generic.py:113-117 | a task survives the filters exactly when some row with both dates and a name gives it |
| Normalize.NormalizeRows | gantt_generic.py:105-125 | the normalisation fails, with the "no valid data" error, exactly when no row survives the filters; otherwise it returns a permutation of the surviving tasks |
| Normalize.LoadAndValidate | gantt_generic.py:92-125 | a successful load resolved every column and returns at least one task; a missing-columns failure names at least one field and lists every header |
| Normalize.ErrorMessage | gantt_generic.py:102-123 | both diagnostics are non-empty and start with different letters: `C` exactly for missing columns |
| Normalize.LoadReportsMissingColumns | gantt_generic.py:99-102 | the load reports missing columns exactly when a field is unresolved, naming those fields and every header |
| Normalize.MissingColumnsMessage | gantt_generic.py:102 | the missing-columns message starts with `Colonnes manquantes: `, names every missing field and every available header, and differs from the message at line 123 |
| Normalize.LoadedTasksSorted | gantt_generic.py:120-125 | a successful load returns a non-empty list sorted by (category, start) |
| Normalize.LoadedTaskOrigin | gantt_generic.py:105-117 | every task returned comes from a row with both dates and a name |
| Normalize.LoadedTasksAreValid | gantt_generic.py:113-117 | every task returned has a real name and the inclusive day count from its start to its end |
| Normalize.LoadKeepsEveryValidRow | gantt_generic.py:113-120 | every row with both dates and a name is in the result, even when its end is before its start |
| Normalize.NoValidDataExactly | gantt_generic.py:122-123 | the "no valid data" error happens exactly when the columns resolve but no row survives |
| Normalize.DurationSign | gantt_generic.py:117 | the day count is at least one exactly when the end is not before the start |
| Palette.GenerateColorPalette | gantt_generic.py:131-138 | the palette for `n` has `n` entries, each one of the fifteen colours |
| Palette.PaletteEntries | gantt_generic.py:131-138 | the palette has `n` entries and entry `i` is colour `i mod 15` |
| Palette.PalettePeriodic | gantt_generic.py:138 | the palette repeats with period 15 |
| Palette.PalettePrefix | gantt_generic.py:138 | a longer palette starts with a shorter one |
| Palette.ColorsDistinct | gantt_generic.py:133-137 | the fifteen colours are pairwise different |
| Palette.PaletteDistinct | gantt_generic.py:131-138 | up to fifteen categories never share a colour |
| Palette.Unique | gantt_generic.py:170 | `unique()` lists each value that occurs, once |
| Palette.FirstIndex | gantt_generic.py:170 | the position found is the first occurrence of the value |
| Palette.UniqueFirstSeenOrder | gantt_generic.py:170 | the distinct values appear in the order of their first occurrence |
| Palette.ColorMap | gantt_generic.py:170-172 | every colour in the map is one of the fifteen palette colours |
| Palette.ColorMapKeys | gantt_generic.py:170-172 | the colour map has a colour for every category and for nothing else |
| Palette.ColorMapSpec | gantt_generic.py:170-172 | the `k`-th category first seen gets colour `k mod 15` |
| Layout.Layout | gantt_generic.py:141-266 | the chart is the placeholder exactly for an empty table; otherwise it is 1200 wide with one band per task |
| Layout.EarliestStart | gantt_generic.py:163 | the earliest start is one of the starts and no start is earlier |
| Layout.LatestEnd | gantt_generic.py:164 | the latest end is one of the ends and no end is later |
| Layout.DateRange | gantt_generic.py:165-167 | the range is the span from first to last day when that span is positive, and 1 otherwise |
| Layout.GridCount | gantt_generic.py:207 | there are 4 grid intervals below 120 days, 12 from 390 days on, and one per 30 days in between |
| Layout.GridLineAt | gantt_generic.py:209-213 | definition, no contract: line `i` of `n` at `280 + (i / n) 880`, labelled `(i * date_range) // n` days after the start; stated by the grid lemmas below |
| Layout.DrawGrid | gantt_generic.py:207-215 | the grid loop computes the specified grid lines |
| Layout.DrawBands | gantt_generic.py:218-251 | the row loop, tracking the current category, computes the specified bands |
| Layout.DrawRow | gantt_generic.py:219-251 | one pass of the row loop gives the specified band and leaves `current_category` at the row's category |
| Layout.DrawLegend | gantt_generic.py:254-262 | the legend loop computes the specified entries |
| Layout.GenerateGanttSvg | gantt_generic.py:141-262 | the whole drawing computes the specified chart, or the placeholder for an empty table |
| Layout.LayoutParts | gantt_generic.py:156-172 | a non-empty chart is built from the date span, the grid, the bands and the legend |
| Layout.ChartDimensions | gantt_generic.py:153-167 | a chart is 1200 wide and `140 + 36 n` high, has one band per task and 5 to 13 grid lines, and its date span covers every task |
| Layout.OffsetInRange | gantt_generic.py:213 | a grid line's day offset lies in `[0, date_range]` |
| Layout.GridSpan | gantt_generic.py:207-213 | grid lines run left to right from x = 280 to x = 1160, labelled from the first day to the last |
| Layout.GridEnds | gantt_generic.py:208-213 | line 0 is at x = 280 on day 0 and line `n` at x = 1160 on the last day of the range |
| Layout.GridLineBounds | gantt_generic.py:209-213 | every grid line lies between the margins and is labelled with a day inside the range |
| Layout.GridLineOrder | gantt_generic.py:209 | a later grid line is further right |
| Layout.GridMatchesBars | gantt_generic.py:209-213 | grid labels and bars share one scale: the day a line is labelled with starts at or left of the line |
| Layout.BarX | gantt_generic.py:239 | definition, no contract: `280 + (start_offset / date_range) 880`; stated by BarBounds, BarXIncreasing and GridMatchesBars |
| Layout.BarWidth | gantt_generic.py:240 | definition, no contract: `max(4, (duration / date_range) 880)`; stated by BarBounds and WholeSpanBar |
| Layout.Marker | gantt_generic.py:226-228 | no category label exactly when the row's category equals the previous row's; a label is at most 28 characters |
| Layout.BandOf | gantt_generic.py:218-251 | definition, no contract: everything drawn for one row; stated by the band lemmas below |
| Layout.BarBounds | gantt_generic.py:239-240 | a bar starts at or right of the margin and is at least 4 wide |
| Layout.BandGeometry | gantt_generic.py:220-240 | band `k` is at y = 80 + 36 k; its bar starts at x ≥ 280 and is at least 4 wide; the task label is cut at 30 |
| Layout.BandShape | gantt_generic.py:220-240 | the same holds for the bands of tasks measured from any day not after their start |
| Layout.RowOffset | gantt_generic.py:220 | row `k` starts at y = 80 + 36 k |
| Layout.BandText | gantt_generic.py:249-251 | the day count is written on a bar exactly when the bar is wider than 40, and it is the row's `duree_jours` |
| Layout.BandBar | gantt_generic.py:235-240 | a bar's position and width are the start offset and the inclusive day count, scaled by the date range |
| Layout.BarsFollowStarts | gantt_generic.py:236-239 | a task that starts later has its bar further right |
| Layout.BarXIncreasing | gantt_generic.py:239 | bar position increases with the start offset |
| Layout.WholeSpanBar | gantt_generic.py:236-240 | a task spanning the whole range starts at the margin and ends one day's width past the last grid line |
| Layout.BarPastCanvas | gantt_generic.py:236-240 | such a bar ends right of the 1200-wide canvas exactly when the date range is under 22 days; a two-day task on a one-day range is 1760 wide |
| Layout.BandColor | gantt_generic.py:170-172 | a band is filled with its category's colour, colour `m mod 15` for the `m`-th category first seen |
| Layout.MarkerAtChange | gantt_generic.py:218-229 | a category label is drawn on row 0 and wherever the category differs from the row above, cut at 25 characters, and nowhere else |
| Layout.MarkerAtFirstRow | gantt_generic.py:226-229 | on a list sorted by category, the label is drawn exactly on each category's first row |
| Layout.CategoriesAreContiguous | gantt_generic.py:120 | in a list sorted by (category, start), the rows of one category are next to each other |
| Layout.LoadedChartMarkers | gantt_generic.py:120 | on the tasks the load returns, a category label is drawn exactly on each category's first row |
| Layout.LegendEntryAt | gantt_generic.py:256-257 | an entry's swatch is in one of the four columns from x = 280 to x = 1120, at or below the legend's top, and its caption is at most 38 characters |
| Layout.Legend | gantt_generic.py:254-262 | at most one entry per colour-map item, and every entry drawn passes the height guard |
| Layout.LegendGuard | gantt_generic.py:258-259 | an entry passes the height guard exactly when it is one of the first four |
| Layout.LegendFirstFour | gantt_generic.py:256-262 | the legend keeps the first `min(4, m)` items, each at its grid position |
| Layout.LegendSize | gantt_generic.py:254-262 | a chart's legend has `min(4, m)` entries for `m` categories |
| Layout.LegendEntries | gantt_generic.py:254-262 | entry `i` is the `i`-th category at (280 + 280 i, 120 + 36 n), in palette colour `i`, cut at 35 |
| Layout.LegendMatchesBars | gantt_generic.py:256 | a legend entry's colour is the colour the map gives its category |

## Left out

- The Streamlit page, the upload and download widgets and the export
  buttons (gantt_generic.py:14-44, 396-572) are UI and I/O.
- Reading the CSV or Excel file is outside the model: it starts from a
  decoded table of cells, and a decoding failure is not modelled.
- `generate_html_report` is not part of this model.
- The SVG text itself is not modelled. This covers the element strings, the
  title and period text, the tooltips, the printed form of coordinates, and
  the `%d/%m/%y` labels of grid dates. Grid dates are kept as day offsets
  from the earliest start.
- Floating point: ratios are exact reals. `int(i * date_range / n)` is
  modelled as integer floor division, which equals the float result for any
  realistic date range.
- Time of day: already-typed date cells (`datetime`, `Timestamp`) are plain
  calendar dates.
- `strptime` details beyond the model:
  - a day or month field is one digit from 1 to 9, or two digits from 01 to
    31 (day) or 01 to 12 (month);
  - a year is exactly four digits;
  - text after the pattern is refused;
  - leading spaces inside fields, non-ASCII digits and years outside
    1..9999 are not modelled.
- `Text.Lower` maps ASCII and Latin-1 capitals only. Other Unicode case
  mappings of `str.lower()` are not modelled.
- `Normalize.CellText`: a number cell or a date cell read through
  `astype(str)` is taken as the text shown, or as ISO text. pandas'
  rendering of floats and timestamps is not modelled.
- Duplicate header names: the model reads a column through the first header
  with the resolved name. With two identical headers, pandas would return
  both columns and the load would end in its generic read error.
- When no cell of a date column parses, pandas may fail at the `.dt`
  accessor and report its generic read error. The model reports
  "no valid data" in that case.
- `Normalize.SortTasks`: the sort is an insertion sort that keeps equal keys
  in input order. Its stability is stated only as "a list already sorted is
  left unchanged" (`SortTasksKeepsSorted`). The relative order of rows with
  equal (category, start) keys is not stated further.
- Geometry that is drawn but not computed by the model: the bar's offset
  `y + 2` and height 24, the row separator lines, the baselines and x
  positions of the category and task labels (x = 5 and x = 270), the centre
  of the day-count text on a bar, the 12 by 12 legend swatch and the offset
  of its caption, and the grid labels' y position. These are constants or
  sums of a row's y with a constant, written straight into the SVG text.
- Error paths that raise inside the source's `try` block, other than the two
  reported errors, are not modelled.
