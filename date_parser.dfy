/**
  The date reader `parse_date`: a decoded table cell becomes a calendar
  date or nothing. Text is stripped and read against six fixed patterns
  in order (ISO 8601 `YYYY-MM-DD`, then `DD/MM/YYYY`, `DD-MM-YYYY`,
  `YYYY/MM/DD`, `DD.MM.YYYY`, `YYYY.MM.DD`); the first one that reads
  the whole text as a valid date wins.
 */
module DateParser {
  import opened Wrappers
  import opened Text
  import opened Dates

  /**
    A cell of the decoded table: empty (NaN/None), text, a number (with the
    text pandas shows for it) or an already-typed date.
   */
  datatype Cell = Blank | Text(s: string) | Number(shown: string) | Stamp(date: CalendarDate)

  predicate IsDigit(c: char)
  {
    '0' <= c <= '9'
  }

  predicate AllDigits(t: string)
  {
    forall i :: 0 <= i < |t| ==> IsDigit(t[i])
  }

  /** The decimal value of a string of digits. */
  function Decimal(t: string): (n: nat)
    requires AllDigits(t)
  {
    if |t| == 0 then 0 else Decimal(t[..|t| - 1]) * 10 + (t[|t| - 1] as int - '0' as int)
  }

  /** The value of a two-digit text. */
  lemma DecimalOfTwo(t: string)
    requires |t| == 2 && AllDigits(t)
    ensures Decimal(t) == (t[0] as int - '0' as int) * 10 + (t[1] as int - '0' as int)
  {
    assert t[..1][..0] == [];
    assert Decimal(t[..1]) == t[0] as int - '0' as int;
  }

  /** The value of a four-digit text. */
  lemma DecimalOfFour(t: string)
    requires |t| == 4 && AllDigits(t)
    ensures Decimal(t) == (t[0] as int - '0' as int) * 1000 + (t[1] as int - '0' as int) * 100
      + (t[2] as int - '0' as int) * 10 + (t[3] as int - '0' as int)
  {
    assert t[..3][..2] == t[..2];
    DecimalOfTwo(t[..2]);
  }

  /** Length of the longest prefix of `s` made of digits. */
  function DigitRun(s: string): (n: nat)
    ensures n <= |s| && AllDigits(s[..n])
    ensures n < |s| ==> !IsDigit(s[n])
  {
    if |s| > 0 && IsDigit(s[0]) then 1 + DigitRun(s[1..]) else 0
  }

  /** `%Y`: exactly four digits. */
  predicate IsYearField(t: string)
  {
    |t| == 4 && AllDigits(t)
  }

  /** `%m`: `1`..`9`, or two digits from `01` to `12`. */
  predicate IsMonthField(t: string)
    ensures IsMonthField(t) ==> AllDigits(t) && 1 <= Decimal(t) <= 12
  {
    assert |t| == 1 ==> t[..0] == [];
    AllDigits(t) && ((|t| == 1 && t[0] != '0') || (|t| == 2 && 1 <= Decimal(t) <= 12))
  }

  /** `%d`: `1`..`9`, or two digits from `01` to `31`. */
  predicate IsDayField(t: string)
    ensures IsDayField(t) ==> AllDigits(t) && 1 <= Decimal(t) <= 31
  {
    assert |t| == 1 ==> t[..0] == [];
    AllDigits(t) && ((|t| == 1 && t[0] != '0') || (|t| == 2 && 1 <= Decimal(t) <= 31))
  }

  datatype FieldOrder = YearFirst | DayFirst

  /** A pattern: the order of the fields and the character between them. */
  datatype Pattern = Pattern(order: FieldOrder, sep: char)

  /** The six patterns, in the order they are tried. */
  const Formats: seq<Pattern> := [
    Pattern(YearFirst, '-'), Pattern(DayFirst, '/'), Pattern(DayFirst, '-'),
    Pattern(YearFirst, '/'), Pattern(DayFirst, '.'), Pattern(YearFirst, '.')
  ]

  /** Year, month and day texts of the pattern's widths spelling `d`. */
  predicate Spells(y: string, m: string, dd: string, d: Date)
  {
    IsYearField(y) && IsMonthField(m) && IsDayField(dd)
    && Decimal(y) == d.year && Decimal(m) == d.month && Decimal(dd) == d.day
  }

  /** The three field texts `a`, `b`, `c` spell date `d` in the given order. */
  predicate FieldsSpell(order: FieldOrder, a: string, b: string, c: string, d: Date)
  {
    if order == YearFirst then Spells(a, b, c, d) else Spells(c, b, a, d)
  }

  /** `s` is three fields separated by the pattern's separator, spelling `d`. */
  predicate WrittenAs(p: Pattern, s: string, d: Date)
  {
    exists i, j :: 0 <= i < j < |s| && s[i] == p.sep && s[j] == p.sep
      && FieldsSpell(p.order, s[..i], s[i + 1..j], s[j + 1..], d)
  }

  /** The date named by year, month and day texts, if the texts have the right widths and the date exists. */
  function ReadDate(y: string, m: string, dd: string): (r: Option<CalendarDate>)
    ensures forall d: Date :: r == Some(d) <==> Spells(y, m, dd, d) && Valid(d)
  {
    if IsYearField(y) && IsMonthField(m) && IsDayField(dd) then
      var date := Date(Decimal(y), Decimal(m), Decimal(dd));
      if Valid(date) then Some(date) else None
    else None
  }

  /**
    `datetime.strptime(s, pattern)`: the first field and the second are the
    digit runs before each separator, the third is the rest of the text; the
    fields must have the pattern's widths and the date must exist.
   */
  function ParseWith(p: Pattern, s: string): Option<CalendarDate>
  {
    var n1 := DigitRun(s);
    if n1 < |s| && s[n1] == p.sep then
      var j := n1 + 1 + DigitRun(s[n1 + 1..]);
      if j < |s| && s[j] == p.sep then
        if p.order == YearFirst then ReadDate(s[..n1], s[n1 + 1..j], s[j + 1..])
        else ReadDate(s[j + 1..], s[n1 + 1..j], s[..n1])
      else None
    else None
  }

  /** The first pattern of `ps` that reads `s`. */
  function FirstParse(ps: seq<Pattern>, s: string): Option<CalendarDate>
  {
    if |ps| == 0 then None
    else match ParseWith(ps[0], s)
      case Some(d) => Some(d)
      case None => FirstParse(ps[1..], s)
  }

  /** What `parse_date` returns for a cell (the specification of ParseDate). */
  function ParsedDate(c: Cell): Option<CalendarDate>
  {
    match c
    case Blank => None
    case Stamp(d) => Some(d)
    case Text(s) => FirstParse(Formats, Strip(s))
    case Number(_) => None
  }

  /** `parse_date`: the loop over the formats with an early return on the first success. */
  method ParseDate(c: Cell) returns (r: Option<CalendarDate>)
    ensures r == ParsedDate(c)
  {
    match c {
      case Blank => return None;
      case Stamp(d) => return Some(d);
      case Number(_) => return None;
      case Text(s) =>
        var text := Strip(s);
        var i := 0;
        while i < |Formats|
          invariant 0 <= i <= |Formats|
          invariant FirstParse(Formats, text) == FirstParse(Formats[i..], text)
        {
          var attempt := ParseWith(Formats[i], text);
          if attempt.Some? {
            return attempt;
          }
          i := i + 1;
        }
        return None;
    }
  }

  // ---------------------------------------------------------------------
  // What the parser accepts

  /** A digit run that ends at a non-digit (or at the end) has that length. */
  lemma {:induction false} DigitRunIs(s: string, n: nat)
    requires n <= |s| && AllDigits(s[..n]) && (n < |s| ==> !IsDigit(s[n]))
    ensures DigitRun(s) == n
  {
    if n > 0 {
      assert IsDigit(s[..n][0]);
      assert s[1..][..n - 1] == s[..n][1..];
      DigitRunIs(s[1..], n - 1);
    }
  }

  /** Whatever the parser reads is a valid date spelled by the text in the pattern's order. */
  lemma ParseWithSound(p: Pattern, s: string, d: Date)
    requires ParseWith(p, s) == Some(d)
    ensures WrittenAs(p, s, d) && Valid(d)
  {
    var n1 := DigitRun(s);
    var j := n1 + 1 + DigitRun(s[n1 + 1..]);
    assert FieldsSpell(p.order, s[..n1], s[n1 + 1..j], s[j + 1..], d);
  }

  /**
    Every text written as three fields spelling a valid date in the
    pattern's order is read as that date (the separators in use are not
    digits, so the fields are found where the parser looks for them).
   */
  lemma ParseWithComplete(p: Pattern, s: string, d: Date)
    requires !IsDigit(p.sep)
    requires WrittenAs(p, s, d) && Valid(d)
    ensures ParseWith(p, s) == Some(d)
  {
    var i, j :| 0 <= i < j < |s| && s[i] == p.sep && s[j] == p.sep
      && FieldsSpell(p.order, s[..i], s[i + 1..j], s[j + 1..], d);
    ReadsAt(p, s, i, j, d);
  }

  /** The fields of a spelled date are digit strings. */
  lemma SpelledDigits(order: FieldOrder, a: string, b: string, c: string, d: Date)
    requires FieldsSpell(order, a, b, c, d)
    ensures AllDigits(a) && AllDigits(b) && AllDigits(c)
  {
  }

  /** With digit fields and non-digit separators at `i` and `j`, the digit runs end at the separators. */
  lemma SplitsAt(sep: char, s: string, i: nat, j: nat)
    requires !IsDigit(sep) && i < j < |s| && s[i] == sep && s[j] == sep
    requires AllDigits(s[..i]) && AllDigits(s[i + 1..j])
    ensures DigitRun(s) == i && i + 1 + DigitRun(s[i + 1..]) == j
  {
    DigitRunIs(s, i);
    var rest := s[i + 1..];
    assert rest[..j - i - 1] == s[i + 1..j];
    assert rest[j - i - 1] == s[j];
    DigitRunIs(rest, j - i - 1);
  }

  /** The formats tried in order: a text parses to `d` exactly when some format reads it as `d` and no earlier one reads it. */
  lemma {:induction false} FirstParseFirstMatch(ps: seq<Pattern>, s: string, d: CalendarDate)
    ensures FirstParse(ps, s) == Some(d) <==>
      exists k :: 0 <= k < |ps| && ParseWith(ps[k], s) == Some(d)
        && forall j :: 0 <= j < k ==> ParseWith(ps[j], s).None?
  {
    if |ps| > 0 {
      FirstParseFirstMatch(ps[1..], s, d);
      if ParseWith(ps[0], s).None? {
        if FirstParse(ps, s) == Some(d) {
          var k :| 0 <= k < |ps| - 1 && ParseWith(ps[1..][k], s) == Some(d)
            && forall j :: 0 <= j < k ==> ParseWith(ps[1..][j], s).None?;
          assert forall j :: 1 <= j < k + 1 ==> ParseWith(ps[j], s) == ParseWith(ps[1..][j - 1], s);
        }
        if exists k :: 0 <= k < |ps| && ParseWith(ps[k], s) == Some(d)
            && forall j :: 0 <= j < k ==> ParseWith(ps[j], s).None? {
          var k :| 0 <= k < |ps| && ParseWith(ps[k], s) == Some(d)
            && forall j :: 0 <= j < k ==> ParseWith(ps[j], s).None?;
          assert k > 0;
          assert ParseWith(ps[1..][k - 1], s) == Some(d);
          assert forall j :: 0 <= j < k - 1 ==> ParseWith(ps[1..][j], s) == ParseWith(ps[j + 1], s);
        }
      }
    }
  }

  /** A text that matches no format, or only reads as a date that does not exist, gives no date. */
  lemma {:induction false} FirstParseNone(ps: seq<Pattern>, s: string)
    ensures FirstParse(ps, s).None? <==> forall k :: 0 <= k < |ps| ==> ParseWith(ps[k], s).None?
  {
    if |ps| > 0 {
      FirstParseNone(ps[1..], s);
      assert forall k :: 1 <= k < |ps| ==> ps[k] == ps[1..][k - 1];
    }
  }

  /** A text with separators at `i` and `j` around fields spelling a valid date reads as that date. */
  lemma ReadsAt(p: Pattern, s: string, i: nat, j: nat, d: Date)
    requires !IsDigit(p.sep) && i < j < |s| && s[i] == p.sep && s[j] == p.sep
    requires FieldsSpell(p.order, s[..i], s[i + 1..j], s[j + 1..], d) && Valid(d)
    ensures ParseWith(p, s) == Some(d)
  {
    SpelledDigits(p.order, s[..i], s[i + 1..j], s[j + 1..], d);
    SplitsAt(p.sep, s, i, j);
    if p.order == YearFirst {
      assert ParseWith(p, s) == ReadDate(s[..i], s[i + 1..j], s[j + 1..]);
    } else {
      assert ParseWith(p, s) == ReadDate(s[j + 1..], s[i + 1..j], s[..i]);
    }
  }

  // ---------------------------------------------------------------------
  // Round trip: a date written in any of the six formats reads back as itself

  function DigitChar(n: int): (c: char)
    requires 0 <= n < 10
    ensures IsDigit(c) && c as int - '0' as int == n
  {
    ('0' as int + n) as char
  }

  /** Zero-padded two-digit field. */
  function Pad2(n: int): (t: string)
    requires 0 <= n < 100
    ensures |t| == 2 && AllDigits(t) && Decimal(t) == n
  {
    var t := [DigitChar(n / 10), DigitChar(n % 10)];
    assert t[..1][..0] == [];
    assert Decimal(t[..1]) == n / 10;
    assert Decimal(t) == (n / 10) * 10 + n % 10;
    t
  }

  /** Zero-padded four-digit field. */
  function Pad4(n: int): (t: string)
    requires 0 <= n < 10000
    ensures |t| == 4 && AllDigits(t) && Decimal(t) == n
  {
    var hi, lo := Pad2(n / 100), Pad2(n % 100);
    var t := hi + lo;
    assert t[..3] == hi + [lo[0]];
    assert t[..3][..2] == hi;
    assert lo[..1][..0] == [] && lo[..1] == [lo[0]];
    assert Decimal(lo) == (lo[0] as int - '0' as int) * 10 + (lo[1] as int - '0' as int);
    t
  }

  /** `d.strftime(pattern)` with zero-padded fields. */
  function Format(p: Pattern, d: CalendarDate): (s: string)
    ensures |s| == 10
  {
    if p.order == YearFirst then Pad4(d.year) + [p.sep] + Pad2(d.month) + [p.sep] + Pad2(d.day)
    else Pad2(d.day) + [p.sep] + Pad2(d.month) + [p.sep] + Pad4(d.year)
  }

  /** The separators of a formatted date sit at the ends of its digit runs. */
  lemma FormatShape(p: Pattern, d: CalendarDate)
    requires !IsDigit(p.sep)
    ensures var s, i := Format(p, d), if p.order == YearFirst then 4 else 2;
      DigitRun(s) == i && s[i] == p.sep
      && DigitRun(s[i + 1..]) == 2 && s[i + 3] == p.sep
      && s[..i] == (if p.order == YearFirst then Pad4(d.year) else Pad2(d.day))
      && s[i + 1..i + 3] == Pad2(d.month)
      && s[i + 4..] == (if p.order == YearFirst then Pad2(d.day) else Pad4(d.year))
  {
    var s, i := Format(p, d), if p.order == YearFirst then 4 else 2;
    assert s[..i] == (if p.order == YearFirst then Pad4(d.year) else Pad2(d.day));
    DigitRunIs(s, i);
    assert s[i + 1..][..2] == Pad2(d.month);
    DigitRunIs(s[i + 1..], 2);
  }

  /** Each pattern reads back the date it formatted. */
  lemma ParseFormat(p: Pattern, d: CalendarDate)
    requires !IsDigit(p.sep)
    ensures ParseWith(p, Format(p, d)) == Some(d)
  {
    FormatShape(p, d);
  }

  /** A pattern with another separator or another field order refuses a formatted date. */
  lemma ParseOtherFormat(q: Pattern, p: Pattern, d: CalendarDate)
    requires !IsDigit(p.sep) && q != p
    ensures ParseWith(q, Format(p, d)).None?
  {
    FormatShape(p, d);
  }

  /** `parse_date(d.strftime(f)) == d` for each of the six formats `f`: no earlier format steals the text. */
  lemma ParsedDateRoundTrip(k: nat, d: CalendarDate)
    requires k < |Formats|
    ensures ParsedDate(Text(Format(Formats[k], d))) == Some(d)
  {
    var p := Formats[k];
    var s := Format(p, d);
    assert Strip(s) == s by {
      FormatShape(p, d);
      StripNoSpace(s);
    }
    ParseFormat(p, d);
    EarlierFormatsRefuse(k, d);
    FirstParseFirstMatch(Formats, s, d);
  }

  /** The formats before the one that wrote a date all refuse it. */
  lemma EarlierFormatsRefuse(k: nat, d: CalendarDate)
    requires k < |Formats|
    ensures forall j :: 0 <= j < k ==> ParseWith(Formats[j], Format(Formats[k], d)).None?
  {
    forall j | 0 <= j < k
      ensures ParseWith(Formats[j], Format(Formats[k], d)).None?
    {
      ParseOtherFormat(Formats[j], Formats[k], d);
    }
  }

  /** Surrounding whitespace is ignored. */
  lemma ParsedDateIgnoresSpace(s: string)
    ensures ParsedDate(Text(s)) == ParsedDate(Text(Strip(s)))
  {
    StripIdempotent(s);
  }

  // The examples below take their text as a parameter fixed by `requires`:
  // stated on a literal, the verifier would unfold the parser on it eagerly.

  /** Day first: `01/02/2025` is the first of February. */
  lemma DayFirstExample(t: string)
    requires t == "01/02/2025"
    ensures ParsedDate(Text(t)) == Some(Date(2025, 2, 1))
  {
    DayFirstWritten(t);
    ParsedDateRoundTrip(1, Date(2025, 2, 1));
  }

  /** `01/02/2025` is the first of February 2025 written day first with `/`. */
  lemma DayFirstWritten(t: string)
    requires t == "01/02/2025"
    ensures Format(Formats[1], Date(2025, 2, 1)) == t
  {
    Pad2Of(1, 0, 1);
    Pad2Of(2, 0, 2);
    Pad2Of(20, 2, 0);
    Pad2Of(25, 2, 5);
    Pad4Of(2025, 20, 25);
    Written(Formats[1], Date(2025, 2, 1), t, "01", "02", "2025");
  }

  /** A leap day reads in a leap year. */
  lemma LeapDayExample(t: string)
    requires t == "2024-02-29"
    ensures ParsedDate(Text(t)) == Some(Date(2024, 2, 29))
  {
    LeapDayWritten(t);
    ParsedDateRoundTrip(0, Date(2024, 2, 29));
  }

  /** `2024-02-29` is the 29th of February 2024 written in ISO 8601 order. */
  lemma LeapDayWritten(t: string)
    requires t == "2024-02-29"
    ensures Format(Formats[0], Date(2024, 2, 29)) == t
  {
    Pad2Of(29, 2, 9);
    Pad2Of(2, 0, 2);
    Pad2Of(20, 2, 0);
    Pad2Of(24, 2, 4);
    Pad4Of(2024, 20, 24);
    Written(Formats[0], Date(2024, 2, 29), t, "2024", "02", "29");
  }

  /** The two digits of `10 a + b`. */
  lemma Pad2Of(n: int, a: int, b: int)
    requires 0 <= a < 10 && 0 <= b < 10 && n == 10 * a + b
    ensures Pad2(n) == [DigitChar(a), DigitChar(b)]
  {
  }

  /** The four digits of `100 hi + lo`. */
  lemma Pad4Of(n: int, hi: int, lo: int)
    requires 0 <= hi < 100 && 0 <= lo < 100 && n == 100 * hi + lo
    ensures Pad4(n) == Pad2(hi) + Pad2(lo)
  {
  }

  /** A text made of the padded fields of `d` and the pattern's separator is how `d` is formatted. */
  lemma Written(p: Pattern, d: CalendarDate, t: string, a: string, b: string, c: string)
    requires p.order == YearFirst ==> a == Pad4(d.year) && c == Pad2(d.day)
    requires p.order == DayFirst ==> a == Pad2(d.day) && c == Pad4(d.year)
    requires b == Pad2(d.month) && t == a + [p.sep] + b + [p.sep] + c
    ensures Format(p, d) == t
  {
  }

  /** `31/02/2025` has the right shape but names no day, so no format reads it. */
  lemma InvalidDayExample(t: string)
    requires t == "31/02/2025"
    ensures ParsedDate(Text(t)).None?
  {
    InvalidDayRefused(t);
    FirstParseNone(Formats, t);
    InvalidDayNoSpace(t);
  }

  /** `31/02/2025` carries no whitespace to strip. */
  lemma InvalidDayNoSpace(t: string)
    requires t == "31/02/2025"
    ensures Strip(t) == t
  {
    StripNoSpace(t);
  }

  /** None of the six patterns reads `31/02/2025`. */
  lemma InvalidDayRefused(t: string)
    requires t == "31/02/2025"
    ensures forall k :: 0 <= k < |Formats| ==> ParseWith(Formats[k], t).None?
  {
    InvalidDaySlash(t);
    InvalidDayOtherSeparators(t);
  }

  /** The patterns with `-` or `.` find `/` after the first digit run of `31/02/2025` and refuse it. */
  lemma InvalidDayOtherSeparators(t: string)
    requires t == "31/02/2025"
    ensures ParseWith(Formats[0], t).None? && ParseWith(Formats[2], t).None?
      && ParseWith(Formats[4], t).None? && ParseWith(Formats[5], t).None?
  {
    DigitRunIs(t, 2);
  }

  /** The two patterns with `/` split `31/02/2025` into `31`, `02`, `2025` and refuse it. */
  lemma InvalidDaySlash(t: string)
    requires t == "31/02/2025"
    ensures ParseWith(Formats[1], t).None? && ParseWith(Formats[3], t).None?
  {
    InvalidDaySplit(t);
    NoThirtyFirstOfFebruary(t[6..], t[3..5], t[..2]);
  }

  /** Where the parser cuts `31/02/2025` with `/`. */
  lemma InvalidDaySplit(t: string)
    requires t == "31/02/2025"
    ensures DigitRun(t) == 2 && t[2] == '/' && 3 + DigitRun(t[3..]) == 5 && t[5] == '/'
    ensures t[..2] == "31" && t[3..5] == "02" && t[6..] == "2025"
  {
    DigitRunIs(t, 2);
    assert t[3..][..2] == t[3..5];
    DigitRunIs(t[3..], 2);
  }

  /** The 31st of February does not exist. */
  lemma NoThirtyFirstOfFebruary(y: string, m: string, dd: string)
    requires y == "2025" && m == "02" && dd == "31"
    ensures ReadDate(y, m, dd).None?
  {
    DecimalOfFour(y);
    DecimalOfTwo(m);
    DecimalOfTwo(dd);
  }
}
