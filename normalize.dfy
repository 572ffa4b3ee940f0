/**
  The normalisation done by `load_and_validate_data` once the file is
  decoded: resolve the columns, read the four fields of every row, drop
  rows without both dates or without a task name, derive the inclusive
  day count, sort by (category, start), and report an empty result as
  its own error.
 */
module Normalize {
  import opened Wrappers
  import opened Text
  import opened Dates
  import opened DateParser
  import opened Columns

  /** A decoded table: header names and rows of cells. */
  datatype Table = Table(headers: seq<string>, rows: seq<seq<Cell>>)

  /** Position of the column named `name` (the first one; `|headers|` when there is none). */
  function ColumnIndex(headers: seq<string>, name: string): (j: nat)
    ensures j <= |headers|
    ensures j < |headers| ==> headers[j] == name
    ensures forall k :: 0 <= k < j ==> headers[k] != name
  {
    if |headers| == 0 || headers[0] == name then 0 else 1 + ColumnIndex(headers[1..], name)
  }

  /** The cell of a row in column `j`; a row shorter than the header reads as empty, as pandas pads it. */
  function CellAt(row: seq<Cell>, j: nat): Cell
  {
    if j < |row| then row[j] else Blank
  }

  /** `.astype(str)` of a cell: a missing value shows as `nan`, a date in ISO form. */
  function CellText(c: Cell): (r: string)
    ensures c.Stamp? ==> |r| == 10 && ParsedDate(Text(r)) == Some(c.date)
  {
    match c
    case Blank => "nan"
    case Text(s) => s
    case Number(shown) => shown
    case Stamp(d) => ParsedDateRoundTrip(0, d); Format(Formats[0], d)
  }

  /** A row of the normalised frame before any filtering. */
  datatype Candidate = Candidate(category: string, task: string, start: Option<CalendarDate>, end: Option<CalendarDate>)

  /** The normalised frame: trimmed text for category and task, parsed dates for start and end. */
  function Extract(t: Table, cols: ColumnMapping): (cs: seq<Candidate>)
    ensures |cs| == |t.rows|
    ensures forall i :: 0 <= i < |cs| ==>
      (cs[i].category == Strip(CellText(CellAt(t.rows[i], ColumnIndex(t.headers, cols.category))))
       && cs[i].start == ParsedDate(CellAt(t.rows[i], ColumnIndex(t.headers, cols.start)))
       && cs[i].end == ParsedDate(CellAt(t.rows[i], ColumnIndex(t.headers, cols.end)))
       && cs[i].task == Strip(CellText(CellAt(t.rows[i], ColumnIndex(t.headers, cols.task)))))
  {
    var c, n, s, e := ColumnIndex(t.headers, cols.category), ColumnIndex(t.headers, cols.task),
                      ColumnIndex(t.headers, cols.start), ColumnIndex(t.headers, cols.end);
    seq(|t.rows|, i requires 0 <= i < |t.rows| =>
      Candidate(Strip(CellText(CellAt(t.rows[i], c))), Strip(CellText(CellAt(t.rows[i], n))),
                ParsedDate(CellAt(t.rows[i], s)), ParsedDate(CellAt(t.rows[i], e))))
  }

  predicate Dated(c: Candidate)
  {
    c.start.Some? && c.end.Some?
  }

  /** The task text is neither empty nor the text of a missing value. */
  predicate Named(c: Candidate)
  {
    c.task != "" && c.task != "nan"
  }

  /** `data.dropna(subset=['debut', 'fin'])`: keeps, in order, the rows with both dates. */
  function DropUndated(cs: seq<Candidate>): (r: seq<Candidate>)
    ensures forall c :: multiset(r)[c] == if Dated(c) then multiset(cs)[c] else 0
  {
    if |cs| == 0 then []
    else
      var n := |cs| - 1;
      assert cs == cs[..n] + [cs[n]];
      DropUndated(cs[..n]) + (if Dated(cs[n]) then [cs[n]] else [])
  }

  /** `data[(data['tache'] != '') & (data['tache'] != 'nan')]`: keeps, in order, the named rows. */
  function DropUnnamed(cs: seq<Candidate>): (r: seq<Candidate>)
    ensures forall c :: multiset(r)[c] == if Named(c) then multiset(cs)[c] else 0
  {
    if |cs| == 0 then []
    else
      var n := |cs| - 1;
      assert cs == cs[..n] + [cs[n]];
      DropUnnamed(cs[..n]) + (if Named(cs[n]) then [cs[n]] else [])
  }

  /** A row of the result, with its derived `duree_jours`. */
  datatype Task = Task(category: string, task: string, start: CalendarDate, end: CalendarDate, durationDays: int)

  /** `(fin - debut).days`: whole days from one date to the other (negative when `b` is earlier). */
  function DaysBetween(a: CalendarDate, b: CalendarDate): int
  {
    DayNumber(b) - DayNumber(a)
  }

  function ToTask(c: Candidate): Task
    requires Dated(c)
  {
    Task(c.category, c.task, c.start.value, c.end.value, DaysBetween(c.start.value, c.end.value) + 1)
  }

  /** `data['duree_jours'] = (data['fin'] - data['debut']).dt.days + 1` */
  function WithDuration(cs: seq<Candidate>): (ts: seq<Task>)
    requires forall i :: 0 <= i < |cs| ==> Dated(cs[i])
    ensures |ts| == |cs| && forall i :: 0 <= i < |cs| ==> ts[i] == ToTask(cs[i])
  {
    seq(|cs|, i requires 0 <= i < |cs| => ToTask(cs[i]))
  }

  // ---------------------------------------------------------------------
  // Sorting by (categorie, debut)

  /** `a` sorts strictly before `b` by (category, start). */
  predicate KeyLess(a: Task, b: Task)
  {
    StrLess(a.category, b.category) || (a.category == b.category && Before(a.start, b.start))
  }

  predicate SortedByKey(ts: seq<Task>)
  {
    forall i, j :: 0 <= i < j < |ts| ==> !KeyLess(ts[j], ts[i])
  }

  lemma KeyLessIrreflexive(a: Task)
    ensures !KeyLess(a, a)
  {
    StrLessIrreflexive(a.category);
  }

  lemma KeyLessTransitive(a: Task, b: Task, c: Task)
    requires KeyLess(a, b) && KeyLess(b, c)
    ensures KeyLess(a, c)
  {
    if StrLess(a.category, b.category) && StrLess(b.category, c.category) {
      StrLessTransitive(a.category, b.category, c.category);
    }
    BeforeTotal(a.start, b.start, c.start);
  }

  /** Places `x` after every element that does not sort after it, so equal keys keep their order. */
  function Insert(x: Task, s: seq<Task>): (r: seq<Task>)
    ensures multiset(r) == multiset(s) + multiset{x}
  {
    if |s| == 0 then [x]
    else if KeyLess(x, s[0]) then [x] + s
    else
      assert s == [s[0]] + s[1..];
      [s[0]] + Insert(x, s[1..])
  }

  /** `sort_values(['categorie', 'debut'])`, a stable sort: each row is inserted after the rows before it. */
  function SortTasks(ts: seq<Task>): (r: seq<Task>)
    ensures multiset(r) == multiset(ts)
  {
    if |ts| == 0 then []
    else
      var n := |ts| - 1;
      assert ts == ts[..n] + [ts[n]];
      Insert(ts[n], SortTasks(ts[..n]))
  }

  lemma {:induction false} InsertSorted(x: Task, s: seq<Task>)
    requires SortedByKey(s)
    ensures SortedByKey(Insert(x, s))
  {
    if |s| > 0 && !KeyLess(x, s[0]) {
      InsertSorted(x, s[1..]);
      var r := Insert(x, s);
      forall j | 0 < j < |r|
        ensures !KeyLess(r[j], r[0])
      {
        assert r[j] in multiset(Insert(x, s[1..]));
        if r[j] == x {
        } else {
          assert r[j] in multiset(s[1..]);
          var k :| 0 <= k < |s[1..]| && s[1..][k] == r[j];
          assert s[k + 1] == r[j];
        }
      }
    } else if |s| > 0 {
      forall j | 0 < j < |s| + 1
        ensures !KeyLess(([x] + s)[j], x)
      {
        if KeyLess(s[j - 1], x) {
          KeyLessTransitive(s[j - 1], x, s[0]);
          KeyLessIrreflexive(s[0]);
        }
      }
    }
  }

  /** The sort's result is ordered by (category, start). */
  lemma {:induction false} SortTasksSorted(ts: seq<Task>)
    ensures SortedByKey(SortTasks(ts))
  {
    if |ts| > 0 {
      SortTasksSorted(ts[..|ts| - 1]);
      InsertSorted(ts[|ts| - 1], SortTasks(ts[..|ts| - 1]));
    }
  }

  /** Inserting an element that sorts after none of a sorted sequence appends it. */
  lemma {:induction false} InsertLast(x: Task, s: seq<Task>)
    requires forall k :: 0 <= k < |s| ==> !KeyLess(x, s[k])
    ensures Insert(x, s) == s + [x]
  {
    if |s| > 0 {
      InsertLast(x, s[1..]);
      assert s == [s[0]] + s[1..];
    }
  }

  /** A stable sort leaves already sorted rows exactly as they are; in particular sorting twice is sorting once. */
  lemma {:induction false} SortTasksKeepsSorted(ts: seq<Task>)
    requires SortedByKey(ts)
    ensures SortTasks(ts) == ts
  {
    if |ts| > 0 {
      var n := |ts| - 1;
      assert SortedByKey(ts[..n]);
      SortTasksKeepsSorted(ts[..n]);
      InsertLast(ts[n], ts[..n]);
      assert ts[..n] + [ts[n]] == ts;
    }
  }

  /**
    The sorting invariant: along the result, categories never decrease,
    and within a category starts never decrease.
   */
  lemma SortedMeansOrdered(ts: seq<Task>, i: int, j: int)
    requires SortedByKey(ts) && 0 <= i < j < |ts|
    ensures StrLess(ts[i].category, ts[j].category)
      || (ts[i].category == ts[j].category && !Before(ts[j].start, ts[i].start))
  {
    StrLessTrichotomy(ts[i].category, ts[j].category);
  }

  // ---------------------------------------------------------------------
  // The whole load

  /** The two failures the normalisation reports. */
  datatype LoadError = MissingColumns(missing: seq<Field>, available: seq<string>) | NoValidData

  /** The rows kept by both filters, with their durations. */
  function Admitted(cs: seq<Candidate>): seq<Task>
  {
    var kept := DropUnnamed(DropUndated(cs));
    KeptAreDatedAndNamed(cs);
    WithDuration(kept)
  }

  /** After both filters, exactly the dated and named rows remain. */
  lemma KeptAreDatedAndNamed(cs: seq<Candidate>)
    ensures forall c :: c in DropUnnamed(DropUndated(cs)) <==> c in cs && Dated(c) && Named(c)
  {
    forall c
      ensures c in DropUnnamed(DropUndated(cs)) <==> c in cs && Dated(c) && Named(c)
    {
      assert c in DropUnnamed(DropUndated(cs)) <==> multiset(DropUnnamed(DropUndated(cs)))[c] > 0;
      assert c in DropUndated(cs) <==> multiset(DropUndated(cs))[c] > 0;
      assert c in cs <==> multiset(cs)[c] > 0;
    }
  }

  /**
    A task is in the result exactly when some row of the frame has both
    dates and a name and gives that task.
   */
  lemma AdmittedExactly(cs: seq<Candidate>, t: Task)
    ensures t in Admitted(cs) <==> exists i :: 0 <= i < |cs| && Dated(cs[i]) && Named(cs[i]) && ToTask(cs[i]) == t
  {
    var kept := DropUnnamed(DropUndated(cs));
    KeptAreDatedAndNamed(cs);
    var ts := Admitted(cs);
    if t in ts {
      var k :| 0 <= k < |ts| && ts[k] == t;
      assert kept[k] in kept;
      var i :| 0 <= i < |cs| && cs[i] == kept[k];
    }
    if exists i :: 0 <= i < |cs| && Dated(cs[i]) && Named(cs[i]) && ToTask(cs[i]) == t {
      var i :| 0 <= i < |cs| && Dated(cs[i]) && Named(cs[i]) && ToTask(cs[i]) == t;
      assert cs[i] in kept;
      var k :| 0 <= k < |kept| && kept[k] == cs[i];
      assert ts[k] == t;
    }
  }

  /** The normalisation of a table whose columns resolved. */
  function NormalizeRows(t: Table, cols: ColumnMapping): (r: Result<seq<Task>, LoadError>)
    ensures r.Failure? <==> |Admitted(Extract(t, cols))| == 0
    ensures r.Failure? ==> r.error == NoValidData
    ensures r.Success? ==> multiset(r.value) == multiset(Admitted(Extract(t, cols)))
  {
    var ts := SortTasks(Admitted(Extract(t, cols)));
    if |ts| == 0 then Failure(NoValidData) else Success(ts)
  }

  /** `load_and_validate_data` after decoding: the sorted task list, or the reason there is none. */
  function LoadAndValidate(t: Table): (r: Result<seq<Task>, LoadError>)
    ensures r.Success? ==> Resolve(t.headers).Success? && |r.value| > 0
    ensures r.Failure? && r.error.MissingColumns? ==> |r.error.missing| > 0 && r.error.available == t.headers
  {
    match Resolve(t.headers)
    case Failure(missing) => Failure(MissingColumns(missing, t.headers))
    case Success(cols) => NormalizeRows(t, cols)
  }

  /** The diagnostic text shown for each failure. */
  function ErrorMessage(e: LoadError): (r: string)
    ensures |r| > 0 && (r[0] == 'C' <==> e.MissingColumns?)
  {
    match e
    case MissingColumns(missing, available) =>
      "Colonnes manquantes: " + Join(seq(|missing|, i requires 0 <= i < |missing| => FieldName(missing[i])), ", ")
      + ". Colonnes disponibles: " + Join(available, ", ")
    case NoValidData => "Aucune donnée valide trouvée après filtrage."
  }

  /**
    The missing-columns message starts with `Colonnes manquantes: `, names
    every missing field and every available header, and differs from the
    "no valid data" message.
   */
  lemma MissingColumnsMessage(missing: seq<Field>, available: seq<string>)
    ensures var m := ErrorMessage(MissingColumns(missing, available));
      |m| >= 21 && m[..21] == "Colonnes manquantes: "
      && (forall i :: 0 <= i < |missing| ==> Contains(m, FieldName(missing[i])))
      && (forall h :: h in available ==> Contains(m, h))
      && m != ErrorMessage(NoValidData)
  {
    var names := seq(|missing|, i requires 0 <= i < |missing| => FieldName(missing[i]));
    var head := "Colonnes manquantes: " + Join(names, ", ");
    var front := head + ". Colonnes disponibles: ";
    var m := front + Join(available, ", ");
    assert ErrorMessage(MissingColumns(missing, available)) == m;
    assert m[..21] == "Colonnes manquantes: " by {
      assert m == "Colonnes manquantes: " + (Join(names, ", ") + ". Colonnes disponibles: " + Join(available, ", "));
    }
    forall i | 0 <= i < |missing|
      ensures Contains(m, FieldName(missing[i]))
    {
      JoinContains(names, ", ", i);
      ContainsConcat("Colonnes manquantes: ", Join(names, ", "), names[i]);
      ContainsConcat(head, ". Colonnes disponibles: ", names[i]);
      ContainsConcat(front, Join(available, ", "), names[i]);
    }
    forall h | h in available
      ensures Contains(m, h)
    {
      var j :| 0 <= j < |available| && available[j] == h;
      JoinContains(available, ", ", j);
      ContainsConcat(front, Join(available, ", "), h);
    }
    assert m[0] == 'C';
    var other := ErrorMessage(NoValidData);
    assert other == "Aucune donnée valide trouvée après filtrage.";
    assert other[0] == 'A';
  }

  // ---------------------------------------------------------------------
  // What the load promises

  /**
    Missing columns: no table is returned exactly when some field does not
    resolve, and the error names those fields and every available header.
   */
  lemma LoadReportsMissingColumns(t: Table)
    ensures (LoadAndValidate(t).Failure? && LoadAndValidate(t).error.MissingColumns?) <==> |Unresolved(t.headers)| > 0
    ensures |Unresolved(t.headers)| > 0 ==>
      LoadAndValidate(t) == Failure(MissingColumns(Unresolved(t.headers), t.headers))
  {
  }

  /** The list returned is never empty and is sorted by (category, start). */
  lemma LoadedTasksSorted(t: Table, ts: seq<Task>)
    requires LoadAndValidate(t) == Success(ts)
    ensures |ts| > 0 && SortedByKey(ts)
  {
    SortTasksSorted(Admitted(Extract(t, Resolve(t.headers).value)));
  }

  /** Every task returned comes from a row of the table with both dates and a name. */
  lemma LoadedTaskOrigin(t: Table, ts: seq<Task>, k: int)
    requires LoadAndValidate(t) == Success(ts) && 0 <= k < |ts|
    ensures Resolve(t.headers).Success?
    ensures exists i :: IsTaskOfRow(t, Resolve(t.headers).value, i, ts[k])
  {
    var cols := Resolve(t.headers).value;
    var cs := Extract(t, cols);
    assert ts[k] in multiset(SortTasks(Admitted(cs)));
    AdmittedExactly(cs, ts[k]);
    var i :| 0 <= i < |cs| && Dated(cs[i]) && Named(cs[i]) && ToTask(cs[i]) == ts[k];
    assert IsTaskOfRow(t, cols, i, ts[k]);
  }

  /**
    Every task returned has a task text that is neither empty nor `nan`,
    and carries the inclusive day count from its start to its end.
   */
  lemma LoadedTasksAreValid(t: Table, ts: seq<Task>, k: int)
    requires LoadAndValidate(t) == Success(ts) && 0 <= k < |ts|
    ensures ts[k].task != "" && ts[k].task != "nan"
    ensures ts[k].durationDays == DayNumber(ts[k].end) - DayNumber(ts[k].start) + 1
  {
    LoadedTaskOrigin(t, ts, k);
  }

  /** Row `i` of the table has both dates and a task name, and gives task `x`. */
  predicate IsTaskOfRow(t: Table, cols: ColumnMapping, i: int, x: Task)
  {
    0 <= i < |t.rows| && var c := Extract(t, cols)[i]; Dated(c) && Named(c) && ToTask(c) == x
  }

  /**
    No row is lost: every row with both dates and a name is in the result;
    an end date before the start date does not exclude a row.
   */
  lemma LoadKeepsEveryValidRow(t: Table, i: int)
    requires Resolve(t.headers).Success? && 0 <= i < |t.rows|
    requires Dated(Extract(t, Resolve(t.headers).value)[i]) && Named(Extract(t, Resolve(t.headers).value)[i])
    ensures LoadAndValidate(t).Success?
    ensures ToTask(Extract(t, Resolve(t.headers).value)[i]) in LoadAndValidate(t).value
  {
    var cs := Extract(t, Resolve(t.headers).value);
    AdmittedExactly(cs, ToTask(cs[i]));
    assert ToTask(cs[i]) in multiset(Admitted(cs));
    assert ToTask(cs[i]) in multiset(SortTasks(Admitted(cs)));
  }

  /** The distinct "no valid data" failure happens exactly when columns resolve but no row survives the filters. */
  lemma NoValidDataExactly(t: Table)
    ensures LoadAndValidate(t) == Failure(NoValidData) <==>
      Resolve(t.headers).Success? &&
      forall i :: 0 <= i < |t.rows| ==> !(Dated(Extract(t, Resolve(t.headers).value)[i]) && Named(Extract(t, Resolve(t.headers).value)[i]))
  {
    if Resolve(t.headers).Success? {
      var cs := Extract(t, Resolve(t.headers).value);
      var ts := Admitted(cs);
      if |SortTasks(ts)| == 0 {
        forall i | 0 <= i < |t.rows|
          ensures !(Dated(cs[i]) && Named(cs[i]))
        {
          if Dated(cs[i]) && Named(cs[i]) {
            LoadKeepsEveryValidRow(t, i);
          }
        }
      } else {
        assert SortTasks(ts)[0] in multiset(ts);
        AdmittedExactly(cs, SortTasks(ts)[0]);
      }
    }
  }

  /** The day count is at least one exactly when the end is not before the start. */
  lemma DurationSign(c: Candidate)
    requires Dated(c)
    ensures ToTask(c).durationDays >= 1 <==> !Before(c.end.value, c.start.value)
  {
    DayNumberOrder(c.end.value, c.start.value);
  }
}
