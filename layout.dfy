/**
  The geometry computed by `generate_gantt_svg`: canvas size, the date
  span of the chart, the vertical grid lines with their date offsets, one
  band per task with its category marker, label, bar and colour, and the
  legend below the chart. Coordinates the source computes with true
  division are exact reals here; those it computes on integers stay
  integers.
 */
module Layout {
  import opened Wrappers
  import opened Text
  import opened Dates
  import opened Normalize
  import opened Palette

  const MarginLeft: int := 280
  const MarginRight: int := 40
  const MarginTop: int := 80
  const MarginBottom: int := 60
  const BarHeight: int := 28
  const BarSpacing: int := 8
  const RowHeight: int := BarHeight + BarSpacing
  const TotalWidth: int := 1200
  const ChartWidth: int := TotalWidth - MarginLeft - MarginRight
  const MinBarWidth: real := 4.0

  /** A vertical grid line: its x position and the day it is labelled with, as an offset from the earliest start. */
  datatype GridLine = GridLine(x: real, dayOffset: int)

  /**
    The band of one task: its top `y`, the category label shown when the
    category changes, the task label, the bar, its fill colour, and the
    day count written on the bar when the bar is wide enough.
   */
  datatype Band = Band(y: int, marker: Option<string>, taskLabel: string, barX: real, barWidth: real,
                       color: string, durationText: Option<int>)

  /** A legend entry: the position of its swatch, its colour and its label. */
  datatype LegendEntry = LegendEntry(x: int, y: int, color: string, caption: string)

  /** The placeholder drawn for an empty table, or the geometry of a chart. */
  datatype Chart =
    | NoData
    | Chart(width: int, height: int, first: CalendarDate, last: CalendarDate, dateRange: int,
            grid: seq<GridLine>, bands: seq<Band>, legend: seq<LegendEntry>)

  // ---------------------------------------------------------------------
  // Date span

  /** `data['debut'].min()` */
  function EarliestStart(ts: seq<Task>): (d: CalendarDate)
    requires |ts| > 0
    ensures exists k :: 0 <= k < |ts| && ts[k].start == d
    ensures forall k :: 0 <= k < |ts| ==> DayNumber(d) <= DayNumber(ts[k].start)
  {
    if |ts| == 1 then ts[0].start
    else
      var rest := EarliestStart(ts[1..]);
      assert forall k :: 1 <= k < |ts| ==> ts[k] == ts[1..][k - 1];
      if DayNumber(ts[0].start) <= DayNumber(rest) then ts[0].start else rest
  }

  /** `data['fin'].max()` */
  function LatestEnd(ts: seq<Task>): (d: CalendarDate)
    requires |ts| > 0
    ensures exists k :: 0 <= k < |ts| && ts[k].end == d
    ensures forall k :: 0 <= k < |ts| ==> DayNumber(ts[k].end) <= DayNumber(d)
  {
    if |ts| == 1 then ts[0].end
    else
      var rest := LatestEnd(ts[1..]);
      assert forall k :: 1 <= k < |ts| ==> ts[k] == ts[1..][k - 1];
      if DayNumber(rest) <= DayNumber(ts[0].end) then ts[0].end else rest
  }

  /** `(max_date - min_date).days`, replaced by 1 when it is not positive. */
  function DateRange(first: CalendarDate, last: CalendarDate): (r: int)
    ensures r >= 1
    ensures DayNumber(first) < DayNumber(last) ==> r == DayNumber(last) - DayNumber(first)
    ensures DayNumber(last) <= DayNumber(first) ==> r == 1
  {
    var days := DayNumber(last) - DayNumber(first);
    if days <= 0 then 1 else days
  }

  // ---------------------------------------------------------------------
  // Vertical grid

  /** `min(12, max(4, date_range // 30))` */
  function GridCount(range: int): (n: int)
    requires range >= 1
    ensures 4 <= n <= 12
    ensures range < 120 ==> n == 4
    ensures 120 <= range < 390 ==> n == range / 30
    ensures range >= 390 ==> n == 12
  {
    var wanted := range / 30;
    if wanted < 4 then 4 else if wanted > 12 then 12 else wanted
  }

  /** Grid line `i` of `n`: at `margin_left + (i / n) * chart_width`, labelled `int(i * date_range / n)` days after the start. */
  function GridLineAt(i: int, n: int, range: int): GridLine
    requires n >= 1 && 0 <= i && range >= 1
  {
    GridLine(MarginLeft as real + (i as real / n as real) * ChartWidth as real, (i * range) / n)
  }

  function Grid(range: int): (g: seq<GridLine>)
    requires range >= 1
    ensures |g| == GridCount(range) + 1
  {
    var n := GridCount(range);
    seq(n + 1, i requires 0 <= i <= n => GridLineAt(i, n, range))
  }

  // ---------------------------------------------------------------------
  // Task bands

  /** The categories of the tasks, row by row (`data['categorie']`). */
  function Categories(ts: seq<Task>): (cs: seq<string>)
    ensures |cs| == |ts| && forall i :: 0 <= i < |ts| ==> cs[i] == ts[i].category
  {
    seq(|ts|, i requires 0 <= i < |ts| => ts[i].category)
  }

  /** `margin_top + idx * row_height`: the index is the row's position, the table having been renumbered. */
  function BandY(i: int): int
  {
    MarginTop + i * RowHeight
  }

  /** `margin_left + (start_offset / date_range) * chart_width` */
  function BarX(startOffset: int, range: int): real
    requires range >= 1
  {
    MarginLeft as real + (startOffset as real / range as real) * ChartWidth as real
  }

  /** `max(4, (duration / date_range) * chart_width)` */
  function BarWidth(duration: int, range: int): real
    requires range >= 1
  {
    var w := (duration as real / range as real) * ChartWidth as real;
    if w < MinBarWidth then MinBarWidth else w
  }

  /** The category label of row `i`, given the category of the row before it (`None` before the first row). */
  function Marker(previous: Option<string>, category: string): (r: Option<string>)
    ensures r.None? <==> previous == Some(category)
    ensures r.Some? ==> |r.value| <= 28
  {
    if previous == Some(category) then None else Some(Truncate(category, 25))
  }

  /** Everything drawn for task `t`; `previous` is the category of the row above. */
  function BandOf(t: Task, i: int, previous: Option<string>, first: CalendarDate, range: int,
                  colors: map<string, string>): Band
    requires range >= 1 && t.category in colors
  {
    var x := BarX(DayNumber(t.start) - DayNumber(first), range);
    var w := BarWidth(DayNumber(t.end) - DayNumber(t.start) + 1, range);
    Band(BandY(i), Marker(previous, t.category), Truncate(t.task, 30), x, w, colors[t.category],
         if w > 40.0 then Some(t.durationDays) else None)
  }

  /** The category of the row above row `i`, as `current_category` holds it when row `i` is reached. */
  function Previous(ts: seq<Task>, i: int): Option<string>
    requires 0 <= i < |ts|
  {
    if i == 0 then None else Some(ts[i - 1].category)
  }

  /** The band of row `k` of `ts`. */
  function BandAt(ts: seq<Task>, k: int, first: CalendarDate, range: int): Band
    requires range >= 1 && 0 <= k < |ts|
  {
    ColorMapKeys(Categories(ts), ts[k].category);
    BandOf(ts[k], k, Previous(ts, k), first, range, ColorMap(Categories(ts)))
  }

  /** A task is drawn with the marker, bar, colour and text that `BandOf` gives it. */
  lemma BandOfIs(t: Task, i: int, previous: Option<string>, first: CalendarDate, range: int,
                 colors: map<string, string>, marker: Option<string>, x: real, w: real, color: string,
                 text: Option<int>)
    requires range >= 1 && t.category in colors
    requires marker == Marker(previous, t.category)
    requires x == BarX(DayNumber(t.start) - DayNumber(first), range)
    requires w == BarWidth(DayNumber(t.end) - DayNumber(t.start) + 1, range)
    requires color == colors[t.category]
    requires text == if w > 40.0 then Some(t.durationDays) else None
    ensures Band(BandY(i), marker, Truncate(t.task, 30), x, w, color, text) == BandOf(t, i, previous, first, range, colors)
  {
  }

  function Bands(ts: seq<Task>, first: CalendarDate, range: int): (bs: seq<Band>)
    requires range >= 1
    ensures |bs| == |ts|
  {
    seq(|ts|, i requires 0 <= i < |ts| => BandAt(ts, i, first, range))
  }

  lemma BandsAt(ts: seq<Task>, first: CalendarDate, range: int, k: int)
    requires range >= 1 && 0 <= k < |ts|
    ensures Bands(ts, first, range)[k] == BandAt(ts, k, first, range)
  {
  }

  // ---------------------------------------------------------------------
  // Legend

  /** `margin_top + chart_height + margin_bottom` */
  function TotalHeight(n: int): int
  {
    MarginTop + n * RowHeight + MarginBottom
  }

  /** `margin_top + chart_height + 40` */
  function LegendTop(n: int): int
  {
    MarginTop + n * RowHeight + 40
  }

  /** Entry `i` of the legend: 4 columns 280 apart, rows 20 apart. */
  function LegendEntryAt(i: nat, n: int, category: string, color: string): (e: LegendEntry)
    ensures MarginLeft <= e.x <= MarginLeft + 3 * 280 && e.y >= LegendTop(n)
    ensures |e.caption| <= 38
  {
    LegendEntry(MarginLeft + (i % 4) * 280, LegendTop(n) + (i / 4) * 20, color, Truncate(category, 35))
  }

  /**
    The entries drawn for the first `|cats|` items of the colour map of a
    chart with `n` rows: an entry is drawn only when its row of the legend
    starts above `total_height - 10`.
   */
  function Legend(cats: seq<string>, palette: seq<string>, n: int): (r: seq<LegendEntry>)
    requires |cats| == |palette|
    ensures |r| <= |cats|
    ensures forall k :: 0 <= k < |r| ==> r[k].y < TotalHeight(n) - 10
  {
    if |cats| == 0 then []
    else
      var i := |cats| - 1;
      var before := Legend(cats[..i], palette[..i], n);
      var e := LegendEntryAt(i, n, cats[i], palette[i]);
      if e.y < TotalHeight(n) - 10 then before + [e] else before
  }

  // ---------------------------------------------------------------------
  // The whole chart

  /** The geometry of `generate_gantt_svg(data)`. */
  function Layout(ts: seq<Task>): (c: Chart)
    ensures c.NoData? <==> |ts| == 0
    ensures c.Chart? ==> c.width == TotalWidth && |c.bands| == |ts|
  {
    if |ts| == 0 then NoData
    else
      var first, last := EarliestStart(ts), LatestEnd(ts);
      var range := DateRange(first, last);
      var u := Unique(Categories(ts));
      Chart(TotalWidth, TotalHeight(|ts|), first, last, range, Grid(range), Bands(ts, first, range),
            Legend(u, GenerateColorPalette(|u|), |ts|))
  }

  /** The grid loop: lines `0..n` of the `n = GridCount(range)` intervals. */
  method DrawGrid(range: int) returns (grid: seq<GridLine>)
    requires range >= 1
    ensures grid == Grid(range)
  {
    var n := GridCount(range);
    grid := [];
    for i := 0 to n + 1
      invariant |grid| == i
      invariant forall k :: 0 <= k < i ==> grid[k] == GridLineAt(k, n, range)
    {
      grid := grid + [GridLineAt(i, n, range)];
    }
  }

  /** The row loop: `current` holds the category of the last row drawn. */
  method DrawBands(ts: seq<Task>, first: CalendarDate, range: int) returns (bands: seq<Band>)
    requires range >= 1
    ensures bands == Bands(ts, first, range)
  {
    var colorMap := ColorMap(Categories(ts));
    bands := [];
    var current: Option<string> := None;
    for i := 0 to |ts|
      invariant |bands| == i
      invariant current == (if i == 0 then None else Some(ts[i - 1].category))
      invariant forall k :: 0 <= k < i ==> bands[k] == BandAt(ts, k, first, range)
    {
      var band;
      band, current := DrawRow(ts, i, first, range, colorMap, current);
      bands := bands + [band];
    }
    assert bands == Bands(ts, first, range) by {
      forall k | 0 <= k < |ts|
        ensures bands[k] == Bands(ts, first, range)[k]
      {
        BandsAt(ts, first, range, k);
      }
    }
  }

  /**
    One pass of the row loop: a category label when the category differs
    from `current`, the task label, the bar, its colour from the colour
    map, and the day count when the bar is wider than 40.
   */
  method DrawRow(ts: seq<Task>, i: int, first: CalendarDate, range: int, colorMap: map<string, string>,
                 current: Option<string>) returns (band: Band, next: Option<string>)
    requires range >= 1 && 0 <= i < |ts| && colorMap == ColorMap(Categories(ts)) && current == Previous(ts, i)
    ensures band == BandAt(ts, i, first, range) && next == Some(ts[i].category)
  {
    var t := ts[i];
    next := current;
    var marker := None;
    if current != Some(t.category) {
      next := Some(t.category);
      marker := Some(Truncate(t.category, 25));
    }
    var x := BarX(DayNumber(t.start) - DayNumber(first), range);
    var w := BarWidth(DayNumber(t.end) - DayNumber(t.start) + 1, range);
    ColorMapKeys(Categories(ts), t.category);
    var text := None;
    if w > 40.0 {
      text := Some(t.durationDays);
    }
    band := Band(BandY(i), marker, Truncate(t.task, 30), x, w, colorMap[t.category], text);
    BandOfIs(t, i, current, first, range, colorMap, marker, x, w, colorMap[t.category], text);
  }

  /** The legend loop over the items of the colour map, skipping entries whose row falls below the canvas. */
  method DrawLegend(categories: seq<string>, colors: seq<string>, n: int) returns (legend: seq<LegendEntry>)
    requires |categories| == |colors|
    ensures legend == Legend(categories, colors, n)
  {
    legend := [];
    for i := 0 to |categories|
      invariant legend == Legend(categories[..i], colors[..i], n)
    {
      var e := LegendEntryAt(i, n, categories[i], colors[i]);
      if e.y < TotalHeight(n) - 10 {
        legend := legend + [e];
      }
      assert categories[..i + 1][..i] == categories[..i];
      assert colors[..i + 1][..i] == colors[..i];
    }
    assert categories[..|categories|] == categories;
    assert colors[..|colors|] == colors;
  }

  /** `generate_gantt_svg`: the date span, then the grid, row and legend loops. */
  method GenerateGanttSvg(ts: seq<Task>) returns (chart: Chart)
    ensures chart == Layout(ts)
  {
    if |ts| == 0 {
      return NoData;
    }
    var first, last := EarliestStart(ts), LatestEnd(ts);
    var range := DayNumber(last) - DayNumber(first);
    if range <= 0 {
      range := 1;
    }
    var categories := Unique(Categories(ts));
    var colors := GenerateColorPalette(|categories|);
    var grid := DrawGrid(range);
    var bands := DrawBands(ts, first, range);
    var legend := DrawLegend(categories, colors, |ts|);
    assert range == DateRange(first, last);
    chart := Chart(TotalWidth, TotalHeight(|ts|), first, last, range, grid, bands, legend);
  }

  // ---------------------------------------------------------------------
  // What the layout promises

  /** The parts of a non-empty chart, one by one. */
  lemma LayoutParts(ts: seq<Task>)
    requires |ts| > 0
    ensures var c := Layout(ts);
      c.Chart? && c.first == EarliestStart(ts) && c.last == LatestEnd(ts)
      && c.dateRange == DateRange(c.first, c.last) && c.width == TotalWidth && c.height == TotalHeight(|ts|)
      && c.grid == Grid(c.dateRange) && c.bands == Bands(ts, c.first, c.dateRange)
      && c.legend == Legend(Unique(Categories(ts)), GenerateColorPalette(|Unique(Categories(ts))|), |ts|)
  {
  }

  /**
    A non-empty chart is 1200 wide and `140 + 36 n` high for `n` tasks,
    has one band per task, a date range of at least one day that spans
    the earliest start to the latest end when those are apart, and
    between 5 and 13 vertical grid lines.
   */
  lemma ChartDimensions(ts: seq<Task>)
    requires |ts| > 0
    ensures Layout(ts).Chart?
    ensures Layout(ts).width == 1200 && Layout(ts).height == 140 + 36 * |ts|
    ensures |Layout(ts).bands| == |ts|
    ensures 5 <= |Layout(ts).grid| <= 13
    ensures Layout(ts).dateRange >= 1
    ensures forall k :: 0 <= k < |ts| ==>
      DayNumber(Layout(ts).first) <= DayNumber(ts[k].start) && DayNumber(ts[k].end) <= DayNumber(Layout(ts).last)
    ensures DayNumber(Layout(ts).first) < DayNumber(Layout(ts).last) ==>
      Layout(ts).dateRange == DayNumber(Layout(ts).last) - DayNumber(Layout(ts).first)
  {
    LayoutParts(ts);
    assert RowHeight == 36;
  }

  /** `(i * range) // n` lies in `[0, range]` when `0 <= i <= n`. */
  lemma OffsetInRange(i: int, n: int, range: int)
    requires 0 <= i <= n && n >= 1 && range >= 1
    ensures 0 <= (i * range) / n <= range
  {
    var q := (i * range) / n;
    assert i * range <= n * range by {
      assert (n - i) * range >= 0;
    }
  }

  /**
    The grid runs from x = 280 to x = 1160, left to right, and its day
    labels run from the first day to the last, never outside the range.
   */
  lemma GridSpan(range: int)
    requires range >= 1
    ensures var g, n := Grid(range), |Grid(range)| - 1;
      g[0].x == 280.0 && g[n].x == 1160.0 && g[0].dayOffset == 0 && g[n].dayOffset == range
    ensures var g := Grid(range);
      forall k :: 0 <= k < |g| ==> 280.0 <= g[k].x <= 1160.0 && 0 <= g[k].dayOffset <= range
    ensures var g := Grid(range);
      forall j, k :: 0 <= j < k < |g| ==> g[j].x < g[k].x
  {
    var g, n := Grid(range), GridCount(range);
    GridLineIs(range, 0);
    GridLineIs(range, n);
    GridEnds(n, range);
    forall k | 0 <= k < |g|
      ensures 280.0 <= g[k].x <= 1160.0 && 0 <= g[k].dayOffset <= range
    {
      GridLineIs(range, k);
      GridLineBounds(k, n, range);
    }
    forall j, k | 0 <= j < k < |g|
      ensures g[j].x < g[k].x
    {
      GridLineIs(range, j);
      GridLineIs(range, k);
      GridLineOrder(j, k, n, range);
    }
  }

  lemma GridLineIs(range: int, k: int)
    requires range >= 1 && 0 <= k <= GridCount(range)
    ensures |Grid(range)| == GridCount(range) + 1 && Grid(range)[k] == GridLineAt(k, GridCount(range), range)
  {
  }

  /** Line 0 is at the margin on day 0, line `n` at the right end on the last day. */
  lemma GridEnds(n: int, range: int)
    requires n >= 1 && range >= 1
    ensures GridLineAt(0, n, range) == GridLine(280.0, 0)
    ensures GridLineAt(n, n, range) == GridLine(1160.0, range)
  {
    assert ChartWidth == 880;
    assert n as real / n as real == 1.0;
    WholeQuotient(n, range);
  }

  lemma WholeQuotient(n: int, a: int)
    requires n >= 1
    ensures (n * a) / n == a
  {
    var q, r := (n * a) / n, (n * a) % n;
    assert n * a == n * q + r && 0 <= r < n;
    assert n * (a - q) == r;
    QuotientUnique(n, a - q, r);
  }

  /** A multiple of `n` that lies in `[0, n)` is zero. */
  lemma QuotientUnique(n: int, d: int, r: int)
    requires n >= 1 && n * d == r && 0 <= r < n
    ensures d == 0
  {
    MultipleBounds(n, d);
  }

  /** A non-zero multiple of `n` is at least `n` away from zero. */
  lemma MultipleBounds(n: int, d: int)
    requires n >= 1
    ensures d >= 1 ==> n * d >= n
    ensures d <= -1 ==> n * d <= -n
  {
    if d >= 1 {
      assert n * d == n + n * (d - 1);
    }
    if d <= -1 {
      assert n * d == -n + n * (d + 1);
    }
  }

  /** Every line lies between the margins and is labelled with a day of the range. */
  lemma GridLineBounds(i: int, n: int, range: int)
    requires 0 <= i <= n && n >= 1 && range >= 1
    ensures 280.0 <= GridLineAt(i, n, range).x <= 1160.0
    ensures 0 <= GridLineAt(i, n, range).dayOffset <= range
  {
    OffsetInRange(i, n, range);
    RatioInUnit(i, n);
    assert ChartWidth == 880;
  }

  /** Lines further along the grid are further right. */
  lemma GridLineOrder(i: int, j: int, n: int, range: int)
    requires 0 <= i < j && n >= 1 && range >= 1
    ensures GridLineAt(i, n, range).x < GridLineAt(j, n, range).x
  {
    RatioIncreasing(i, j, n);
    assert ChartWidth == 880;
  }

  lemma RatioInUnit(i: int, n: int)
    requires 0 <= i <= n && n >= 1
    ensures 0.0 <= i as real / n as real <= 1.0
  {
  }

  lemma RatioIncreasing(i: int, j: int, n: int)
    requires i < j && n >= 1
    ensures i as real / n as real < j as real / n as real
  {
  }

  /**
    Grid labels and bars share one scale: a bar that starts on the day a
    grid line is labelled with starts at or left of that line, and a bar
    that starts one day later starts right of it.
   */
  lemma GridMatchesBars(range: int, k: int)
    requires range >= 1 && 0 <= k < |Grid(range)|
    ensures var g := Grid(range)[k];
      BarX(g.dayOffset, range) <= g.x < BarX(g.dayOffset + 1, range)
  {
    var n := GridCount(range);
    var d := (k * range) / n;
    assert d * n <= k * range < (d + 1) * n;
    var r := k as real / n as real;
    assert d as real / range as real <= r < (d + 1) as real / range as real by {
      ScaleBetween(d, k, n, range);
    }
  }

  lemma ScaleBetween(d: int, k: int, n: int, range: int)
    requires n >= 1 && range >= 1 && d * n <= k * range < (d + 1) * n
    ensures d as real / range as real <= k as real / n as real < (d + 1) as real / range as real
  {
    assert (d * n) as real <= (k * range) as real < ((d + 1) * n) as real;
  }

  /** A bar never starts left of the margin and is never narrower than 4. */
  lemma BarBounds(offset: int, duration: int, range: int)
    requires offset >= 0 && range >= 1
    ensures BarX(offset, range) >= 280.0 && BarWidth(duration, range) >= 4.0
  {
    assert offset as real / range as real >= 0.0;
  }

  /**
    Band `k` sits at y = 80 + 36 k; its bar starts at or right of the left
    margin and is at least 4 wide; the task label is cut at 30 characters.
   */
  lemma BandGeometry(ts: seq<Task>, k: int)
    requires 0 <= k < |ts|
    ensures Layout(ts).Chart? && |Layout(ts).bands| == |ts|
    ensures var b := Layout(ts).bands[k];
      b.y == 80 + 36 * k && b.barX >= 280.0 && b.barWidth >= 4.0 && b.taskLabel == Truncate(ts[k].task, 30)
  {
    LayoutParts(ts);
    var c := Layout(ts);
    assert c.first == EarliestStart(ts) && c.bands == Bands(ts, c.first, c.dateRange);
    BandShape(ts, c.first, c.dateRange, k);
  }

  /** The same, for the bands of tasks measured from any day not after their start. */
  lemma BandShape(ts: seq<Task>, first: CalendarDate, range: int, k: int)
    requires range >= 1 && 0 <= k < |ts| && DayNumber(first) <= DayNumber(ts[k].start)
    ensures |Bands(ts, first, range)| == |ts|
    ensures var b := Bands(ts, first, range)[k];
      b.y == 80 + 36 * k && b.barX >= 280.0 && b.barWidth >= 4.0 && b.taskLabel == Truncate(ts[k].task, 30)
  {
    BandsAt(ts, first, range, k);
    ColorMapKeys(Categories(ts), ts[k].category);
    BandOfShape(ts[k], k, Previous(ts, k), first, range, ColorMap(Categories(ts)));
  }

  /** The same, for the band of one task. */
  lemma BandOfShape(t: Task, i: int, previous: Option<string>, first: CalendarDate, range: int,
                    colors: map<string, string>)
    requires range >= 1 && t.category in colors && DayNumber(first) <= DayNumber(t.start)
    ensures var b := BandOf(t, i, previous, first, range, colors);
      b.y == 80 + 36 * i && b.barX >= 280.0 && b.barWidth >= 4.0 && b.taskLabel == Truncate(t.task, 30)
  {
    BarBounds(DayNumber(t.start) - DayNumber(first), DayNumber(t.end) - DayNumber(t.start) + 1, range);
    RowOffset(i);
  }

  /** `margin_top + idx * row_height` is `80 + 36 idx`. */
  lemma RowOffset(k: int)
    ensures BandY(k) == 80 + 36 * k
  {
    assert RowHeight == 36;
  }

  /** The day count is written on a bar exactly when the bar is wider than 40. */
  lemma BandText(ts: seq<Task>, k: int)
    requires 0 <= k < |ts|
    ensures Layout(ts).Chart? && |Layout(ts).bands| == |ts|
    ensures var b := Layout(ts).bands[k];
      (b.durationText.Some? <==> b.barWidth > 40.0) && (b.durationText.Some? ==> b.durationText.value == ts[k].durationDays)
  {
    LayoutParts(ts);
    var c := Layout(ts);
    BandsAt(ts, c.first, c.dateRange, k);
  }

  /** Bars keep the order of start dates: a task that starts later has its bar further right. */
  lemma BarsFollowStarts(ts: seq<Task>, first: CalendarDate, range: int, j: int, k: int)
    requires range >= 1 && 0 <= j < |ts| && 0 <= k < |ts| && DayNumber(ts[j].start) < DayNumber(ts[k].start)
    ensures |Bands(ts, first, range)| == |ts|
    ensures Bands(ts, first, range)[j].barX < Bands(ts, first, range)[k].barX
  {
    BandsAt(ts, first, range, j);
    BandsAt(ts, first, range, k);
    BandAtOrder(ts, first, range, j, k);
  }

  /** The same for the bands `BandAt` gives two rows. */
  lemma BandAtOrder(ts: seq<Task>, first: CalendarDate, range: int, j: int, k: int)
    requires range >= 1 && 0 <= j < |ts| && 0 <= k < |ts| && DayNumber(ts[j].start) < DayNumber(ts[k].start)
    ensures BandAt(ts, j, first, range).barX < BandAt(ts, k, first, range).barX
  {
    ColorMapKeys(Categories(ts), ts[j].category);
    ColorMapKeys(Categories(ts), ts[k].category);
    var colors := ColorMap(Categories(ts));
    BandOfOrder(ts[j], ts[k], j, k, Previous(ts, j), Previous(ts, k), first, range, colors);
  }

  /** The band of a task that starts later has its bar further right. */
  lemma BandOfOrder(tj: Task, tk: Task, j: int, k: int, pj: Option<string>, pk: Option<string>,
                    first: CalendarDate, range: int, colors: map<string, string>)
    requires range >= 1 && tj.category in colors && tk.category in colors
    requires DayNumber(tj.start) < DayNumber(tk.start)
    ensures BandOf(tj, j, pj, first, range, colors).barX < BandOf(tk, k, pk, first, range, colors).barX
  {
    BandOfBar(tj, j, pj, first, range, colors);
    BandOfBar(tk, k, pk, first, range, colors);
    OrderOfBars(BandOf(tj, j, pj, first, range, colors), BandOf(tk, k, pk, first, range, colors),
                tj.start, tk.start, first, range);
  }

  /** Two bands whose bars start at the offsets of two dates are ordered as the dates are. */
  lemma OrderOfBars(bj: Band, bk: Band, sj: CalendarDate, sk: CalendarDate, first: CalendarDate, range: int)
    requires range >= 1 && DayNumber(sj) < DayNumber(sk)
    requires bj.barX == BarX(DayNumber(sj) - DayNumber(first), range)
    requires bk.barX == BarX(DayNumber(sk) - DayNumber(first), range)
    ensures bj.barX < bk.barX
  {
    BarXIncreasing(DayNumber(sj) - DayNumber(first), DayNumber(sk) - DayNumber(first), range);
  }

  /** A later offset gives a bar that starts further right. */
  lemma BarXIncreasing(a: int, b: int, range: int)
    requires a < b && range >= 1
    ensures BarX(a, range) < BarX(b, range)
  {
    RatioIncreasing(a, b, range);
  }

  /**
    A task that runs from the first day of the chart to the last, when
    those differ, has its bar start at the left margin and end one day's
    width right of the last grid line (x = 1160): the day count drawn is
    inclusive while the range it is divided by is not.
   */
  lemma WholeSpanBar(ts: seq<Task>, first: CalendarDate, range: int, k: int)
    requires range >= 1 && 0 <= k < |ts|
    requires ts[k].start == first && DayNumber(ts[k].end) - DayNumber(first) == range
    ensures |Bands(ts, first, range)| == |ts|
    ensures Bands(ts, first, range)[k].barX == 280.0
    ensures Bands(ts, first, range)[k].barWidth == 880.0 + 880.0 / range as real
  {
    BandsAt(ts, first, range, k);
    ColorMapKeys(Categories(ts), ts[k].category);
    BandOfWholeSpan(ts[k], k, Previous(ts, k), first, range, ColorMap(Categories(ts)));
  }

  /** The same, for the band of one task. */
  lemma BandOfWholeSpan(t: Task, i: int, previous: Option<string>, first: CalendarDate, range: int,
                        colors: map<string, string>)
    requires range >= 1 && t.category in colors
    requires t.start == first && DayNumber(t.end) - DayNumber(first) == range
    ensures BandOf(t, i, previous, first, range, colors).barX == 280.0
    ensures BandOf(t, i, previous, first, range, colors).barWidth == 880.0 + 880.0 / range as real
  {
    BandOfBar(t, i, previous, first, range, colors);
    OneDayMore(range);
  }

  /**
    Such a bar can run past the canvas: it ends right of `total_width`
    exactly when the range is under 22 days. With a one-day range a two-day
    task is 1760 px wide on a 1200 px canvas.
   */
  lemma BarPastCanvas(r: int)
    requires r >= 1
    ensures BarX(0, r) + BarWidth(r + 1, r) > TotalWidth as real <==> r < 22
    ensures BarWidth(2, 1) == 1760.0
  {
    OneDayMore(r);
    OneDayMore(1);
    var q := 880.0 / r as real;
    assert q * r as real == 880.0;
    if r < 22 {
      assert q * r as real < q * 22.0;
    } else {
      assert q * r as real >= q * 22.0;
    }
  }

  /** The bar of row `k` starts at the row's start offset and spans its inclusive day count, both scaled. */
  lemma BandBar(ts: seq<Task>, first: CalendarDate, range: int, k: int)
    requires range >= 1 && 0 <= k < |ts|
    ensures |Bands(ts, first, range)| == |ts|
    ensures Bands(ts, first, range)[k].barX == BarX(DayNumber(ts[k].start) - DayNumber(first), range)
    ensures Bands(ts, first, range)[k].barWidth == BarWidth(DayNumber(ts[k].end) - DayNumber(ts[k].start) + 1, range)
  {
    BandsAt(ts, first, range, k);
    ColorMapKeys(Categories(ts), ts[k].category);
    BandOfBar(ts[k], k, Previous(ts, k), first, range, ColorMap(Categories(ts)));
  }

  /** A band's bar starts at its task's start offset and spans its inclusive day count, both scaled. */
  lemma BandOfBar(t: Task, i: int, previous: Option<string>, first: CalendarDate, range: int,
                  colors: map<string, string>)
    requires range >= 1 && t.category in colors
    ensures BandOf(t, i, previous, first, range, colors).barX == BarX(DayNumber(t.start) - DayNumber(first), range)
    ensures BandOf(t, i, previous, first, range, colors).barWidth == BarWidth(DayNumber(t.end) - DayNumber(t.start) + 1, range)
  {
  }

  /** An offset of zero is the left margin; a range plus one day is the chart width plus one day's width. */
  lemma OneDayMore(r: int)
    requires r >= 1
    ensures BarX(0, r) == 280.0
    ensures BarWidth(r + 1, r) == 880.0 + 880.0 / r as real
  {
    assert (r + 1) as real / r as real == 1.0 + 1.0 / r as real;
    assert 880.0 / r as real == 880.0 * (1.0 / r as real);
  }

  /**
    Band `k` is filled with the colour of its category, which is colour
    `m mod 15` for the `m`-th category first seen.
   */
  lemma BandColor(ts: seq<Task>, k: int)
    requires 0 <= k < |ts|
    ensures Layout(ts).Chart? && |Layout(ts).bands| == |ts|
    ensures ts[k].category in Unique(Categories(ts))
    ensures var m := FirstIndex(Unique(Categories(ts)), ts[k].category);
      Layout(ts).bands[k].color == Colors[m % 15]
  {
    var c := Layout(ts);
    var u := Unique(Categories(ts));
    BandsAt(ts, c.first, c.dateRange, k);
    assert Categories(ts)[k] == ts[k].category;
    var m := FirstIndex(u, ts[k].category);
    ColorMapSpec(Categories(ts), m);
  }

  /**
    A category label is drawn on row 0 and on every row whose category
    differs from the row above, cut at 25 characters, and nowhere else.
   */
  lemma MarkerAtChange(ts: seq<Task>, k: int)
    requires 0 <= k < |ts|
    ensures Layout(ts).Chart? && |Layout(ts).bands| == |ts|
    ensures Layout(ts).bands[k].marker.Some? <==> (k == 0 || ts[k].category != ts[k - 1].category)
    ensures Layout(ts).bands[k].marker.Some? ==> Layout(ts).bands[k].marker.value == Truncate(ts[k].category, 25)
  {
    var c := Layout(ts);
    BandsAt(ts, c.first, c.dateRange, k);
  }

  /**
    On a list sorted by (category, start), as the load returns it, a
    category label is drawn exactly on the first row of each category.
   */
  lemma MarkerAtFirstRow(ts: seq<Task>, k: int)
    requires SortedByKey(ts) && 0 <= k < |ts|
    ensures Layout(ts).Chart? && |Layout(ts).bands| == |ts|
    ensures Layout(ts).bands[k].marker.Some? <==> forall j :: 0 <= j < k ==> ts[j].category != ts[k].category
  {
    MarkerAtChange(ts, k);
    if exists j :: 0 <= j < k && ts[j].category == ts[k].category {
      var j :| 0 <= j < k && ts[j].category == ts[k].category;
      CategoriesAreContiguous(ts, j, k);
    }
  }

  /** In a list sorted by (category, start), the rows of one category are next to each other. */
  lemma CategoriesAreContiguous(ts: seq<Task>, j: int, k: int)
    requires SortedByKey(ts) && 0 <= j < k < |ts| && ts[j].category == ts[k].category
    ensures ts[k - 1].category == ts[k].category
  {
    if j < k - 1 {
      SortedMeansOrdered(ts, j, k - 1);
      SortedMeansOrdered(ts, k - 1, k);
      StrLessTrichotomy(ts[k - 1].category, ts[k].category);
    }
  }

  /** A legend entry's row starts above `total_height - 10` exactly for the first four entries. */
  lemma LegendGuard(i: nat, n: int, category: string, color: string)
    ensures LegendEntryAt(i, n, category, color).y < TotalHeight(n) - 10 <==> i < 4
  {
  }

  /** Entries 0 to 3 fill the first legend row, in the colours that start the palette. */
  lemma FirstRowOfLegend(i: int, n: int, category: string, color: string)
    requires 0 <= i < 4
    ensures LegendEntryAt(i, n, category, color) == LegendEntry(280 + 280 * i, 120 + 36 * n, color, Truncate(category, 35))
    ensures i % 15 == i
  {
  }

  /** The legend keeps the first four items of the colour map, in order, each at its column. */
  lemma {:induction false} LegendFirstFour(cats: seq<string>, palette: seq<string>, n: int)
    requires |cats| == |palette|
    ensures |Legend(cats, palette, n)| == if |cats| < 4 then |cats| else 4
    ensures forall i :: 0 <= i < |Legend(cats, palette, n)| ==>
      Legend(cats, palette, n)[i] == LegendEntryAt(i, n, cats[i], palette[i])
  {
    if |cats| > 0 {
      var i := |cats| - 1;
      LegendFirstFour(cats[..i], palette[..i], n);
      LegendGuard(i, n, cats[i], palette[i]);
    }
  }

  /** The legend of a chart shows `min(4, m)` entries for its `m` categories. */
  lemma LegendSize(ts: seq<Task>)
    requires |ts| > 0
    ensures Layout(ts).Chart?
    ensures var u := Unique(Categories(ts));
      |Layout(ts).legend| == if |u| < 4 then |u| else 4
  {
    LayoutParts(ts);
    var u := Unique(Categories(ts));
    LegendFirstFour(u, GenerateColorPalette(|u|), |ts|);
  }

  /**
    Legend entry `i` is one of the first four and shows the `i`-th category
    first seen, at (280 + 280 i, 120 + 36 n), in colour `i` of the
    palette, with its name cut at 35 characters.
   */
  lemma LegendEntries(ts: seq<Task>, i: int)
    requires |ts| > 0
    requires Layout(ts).Chart? && 0 <= i < |Layout(ts).legend|
    ensures i < 4 && i < |Unique(Categories(ts))|
    ensures Layout(ts).legend[i] == LegendEntry(280 + 280 * i, 120 + 36 * |ts|, Colors[i % 15], Truncate(Unique(Categories(ts))[i], 35))
  {
    LayoutParts(ts);
    var u := Unique(Categories(ts));
    var palette := GenerateColorPalette(|u|);
    LegendFirstFour(u, palette, |ts|);
    assert i < 4 && i < |u|;
    FirstRowOfLegend(i, |ts|, u[i], palette[i]);
    PaletteEntries(|u|, i);
  }

  /** The colour of legend entry `i` is the colour the map gives its category, so it matches that category's bars. */
  lemma LegendMatchesBars(ts: seq<Task>, i: int)
    requires |ts| > 0
    requires Layout(ts).Chart? && 0 <= i < |Layout(ts).legend|
    ensures var u := Unique(Categories(ts));
      i < |u| && u[i] in ColorMap(Categories(ts)) && ColorMap(Categories(ts))[u[i]] == Layout(ts).legend[i].color
  {
    LegendSize(ts);
    LegendEntries(ts, i);
    FirstRowOfLegend(i, |ts|, "", "");
    ColorMapSpec(Categories(ts), i);
  }

  /**
    On a chart of the tasks the load returns, a category label is drawn
    exactly on the first row of each category.
   */
  lemma LoadedChartMarkers(t: Table, ts: seq<Task>, k: int)
    requires LoadAndValidate(t) == Success(ts) && 0 <= k < |ts|
    ensures Layout(ts).Chart? && |Layout(ts).bands| == |ts|
    ensures Layout(ts).bands[k].marker.Some? <==> forall j :: 0 <= j < k ==> ts[j].category != ts[k].category
  {
    LoadedTasksSorted(t, ts);
    MarkerAtFirstRow(ts, k);
  }
}
