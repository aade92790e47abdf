/** The part of Python's `datetime` the flight core uses: proleptic Gregorian
    dates, `toordinal()`, `weekday()`, `strptime(s, '%Y%m%d')` and the two
    `strftime` layouts `%Y%m%d` and `%Y/%m/%d`. A `datetime` at midnight is
    modelled by its date; `(b - a).days` is the difference of ordinals and
    `a + timedelta(days=i)` is the date whose ordinal is `i` further on. */
module PyDate {
  import opened Wrappers
  import opened PyBuiltins

  datatype Date = Date(year: int, month: int, day: int)

  const MinYear := 1
  const MaxYear := 9999

  predicate IsLeap(y: int) {
    y % 4 == 0 && (y % 100 != 0 || y % 400 == 0)
  }

  function DaysInMonth(y: int, m: int): int
    requires 1 <= m <= 12
  {
    if m == 2 then (if IsLeap(y) then 29 else 28)
    else if m == 4 || m == 6 || m == 9 || m == 11 then 30
    else 31
  }

  /** The dates `datetime` can represent. */
  predicate Valid(d: Date) {
    MinYear <= d.year <= MaxYear && 1 <= d.month <= 12 && 1 <= d.day <= DaysInMonth(d.year, d.month)
  }

  type ValidDate = d: Date | Valid(d) witness Date(1, 1, 1)

  function DaysBeforeYear(y: int): int {
    var p := y - 1;
    p * 365 + p / 4 - p / 100 + p / 400
  }

  function DaysBeforeMonth(y: int, m: int): int
    requires 1 <= m <= 12
  {
    [0, 31, 59, 90, 120, 151, 181, 212, 243, 273, 304, 334][m - 1] + (if m > 2 && IsLeap(y) then 1 else 0)
  }

  /** `date.toordinal()`: 0001-01-01 is day 1. */
  function Ordinal(d: ValidDate): int {
    DaysBeforeYear(d.year) + DaysBeforeMonth(d.year, d.month) + d.day
  }

  /** `date.weekday()` of the date with this ordinal: Monday is 0, Sunday 6. */
  function Weekday(ordinal: int): (w: int)
    ensures 0 <= w < 7
  {
    (ordinal + 6) % 7
  }

  /** The calendar day after `d`. */
  function NextDate(d: ValidDate): Date {
    if d.day < DaysInMonth(d.year, d.month) then Date(d.year, d.month, d.day + 1)
    else if d.month < 12 then Date(d.year, d.month + 1, 1)
    else Date(d.year + 1, 1, 1)
  }

  lemma DivMod(x: int, k: int, q: int, r: int)
    requires 0 < k && 0 <= r < k && x == k * q + r
    ensures x / k == q && x % k == r
  {
    var t := x / k - q;
    assert k * t == r - x % k;
  }

  /** How many multiples of `k` lie in `(y - 1, y]`, by floor division. */
  lemma StepDiv(y: int, k: int)
    requires 0 < k
    ensures y / k - (y - 1) / k == if y % k == 0 then 1 else 0
  {
    var q, r := y / k, y % k;
    if r == 0 {
      DivMod(y - 1, k, q - 1, k - 1);
    } else {
      DivMod(y - 1, k, q, r - 1);
    }
  }

  lemma DaysBeforeNextYear(y: int)
    ensures DaysBeforeYear(y + 1) == DaysBeforeYear(y) + (if IsLeap(y) then 366 else 365)
  {
    StepDiv(y, 4);
    StepDiv(y, 100);
    StepDiv(y, 400);
    if y % 400 == 0 {
      DivMod(y, 4, y / 400 * 100, 0);
      DivMod(y, 100, y / 400 * 4, 0);
    } else if y % 100 == 0 {
      DivMod(y, 4, y / 100 * 25, 0);
    }
  }

  /** Counting one day on in the calendar is counting one on the ordinal:
      `d + timedelta(days=1)` is the next calendar date. */
  lemma OrdinalOfNextDate(d: ValidDate)
    requires d != Date(MaxYear, 12, 31)
    ensures Valid(NextDate(d)) && Ordinal(NextDate(d)) == Ordinal(d) + 1
  {
    if d.day == DaysInMonth(d.year, d.month) && d.month == 12 {
      DaysBeforeNextYear(d.year);
    }
  }

  // ------------------------------------------------------------ strftime

  function Pad2(n: nat): (s: string)
    requires n < 100
    ensures |s| == 2 && AllDigits(s)
  {
    [DigitChar(n / 10), DigitChar(n % 10)]
  }

  function Pad4(n: nat): (s: string)
    requires n < 10000
    ensures |s| == 4 && AllDigits(s)
  {
    [DigitChar(n / 1000), DigitChar(n / 100 % 10), DigitChar(n / 10 % 10), DigitChar(n % 10)]
  }

  /** `d.strftime('%Y%m%d')`. */
  function FormatYmd(d: ValidDate): (s: string)
    ensures |s| == 8 && AllDigits(s)
  {
    Pad4(d.year) + Pad2(d.month) + Pad2(d.day)
  }

  /** `d.strftime('%Y/%m/%d')`. */
  function FormatYmdSlashed(d: ValidDate): (s: string)
    ensures |s| == 10 && s[4] == '/' && s[7] == '/'
    ensures s[..4] + s[5..7] + s[8..] == FormatYmd(d)
  {
    var year, month, day := Pad4(d.year), Pad2(d.month), Pad2(d.day);
    var s := year + "/" + month + "/" + day;
    assert s[..4] == year && s[5..7] == month && s[8..] == day;
    s
  }

  // ------------------------------------------------------------ strptime

  /** A match of one directive: the number it denotes and how many
      characters it took. */
  datatype Piece = Piece(value: int, length: nat)

  /** The ways `%m`, that is `1[0-2]|0[1-9]|[1-9]`, matches at position `i`,
      in the order the regular expression tries them. */
  function MonthPieces(s: string, i: nat): (ps: seq<Piece>)
    ensures forall k :: 0 <= k < |ps| ==> 1 <= ps[k].length <= 2
  {
    (if i + 1 < |s| && s[i] == '1' && '0' <= s[i + 1] <= '2' then [Piece(10 + DigitValue(s[i + 1]), 2)] else []) +
    (if i + 1 < |s| && s[i] == '0' && '1' <= s[i + 1] <= '9' then [Piece(DigitValue(s[i + 1]), 2)] else []) +
    (if i < |s| && '1' <= s[i] <= '9' then [Piece(DigitValue(s[i]), 1)] else [])
  }

  /** What the matcher captured: year, month, day and where the match ended. */
  datatype Captures = Captures(year: int, month: int, day: int, end: nat)

  /** The alternative of `%d`, that is `3[0-1]|[1-2]\d|0[1-9]|[1-9]| [1-9]`,
      the regular expression settles on at position `i`: the first that
      matches, since nothing in the pattern follows `%d`. */
  function FirstDay(s: string, i: nat): (p: Option<Piece>)
    ensures p.Some? ==> 1 <= p.value.length <= 2
  {
    if i + 1 < |s| && s[i] == '3' && '0' <= s[i + 1] <= '1' then Some(Piece(30 + DigitValue(s[i + 1]), 2))
    else if i + 1 < |s| && '1' <= s[i] <= '2' && IsDigit(s[i + 1]) then Some(Piece(10 * DigitValue(s[i]) + DigitValue(s[i + 1]), 2))
    else if i + 1 < |s| && s[i] == '0' && '1' <= s[i + 1] <= '9' then Some(Piece(DigitValue(s[i + 1]), 2))
    else if i < |s| && '1' <= s[i] <= '9' then Some(Piece(DigitValue(s[i]), 1))
    else if i + 1 < |s| && s[i] == ' ' && '1' <= s[i + 1] <= '9' then Some(Piece(DigitValue(s[i + 1]), 2))
    else None
  }

  /** Backtracking over the month alternatives from the `j`-th on: the first
      one after which some day alternative matches wins, with the first such
      day. Nothing in the pattern follows `%d`, so any day alternative
      completes the match. */
  function MatchMonthDay(s: string, year: int, months: seq<Piece>, j: nat): (c: Option<Captures>)
    requires forall k :: 0 <= k < |months| ==> 1 <= months[k].length <= 2
    ensures c.Some? ==> 6 <= c.value.end <= 8
    decreases |months| - j
  {
    if j >= |months| then None
    else
      match FirstDay(s, 4 + months[j].length)
      case Some(day) => Some(Captures(year, months[j].value, day.value, 4 + months[j].length + day.length))
      case None => MatchMonthDay(s, year, months, j + 1)
  }

  /** `re.match` of the pattern `%Y%m%d` compiles to, with `%Y` as `\d\d\d\d`. */
  function MatchYmd(s: string): Option<Captures> {
    if |s| >= 4 && AllDigits(s[..4]) then MatchMonthDay(s, DigitsValue(s[..4]), MonthPieces(s, 4), 0) else None
  }

  /** `datetime.strptime(s, '%Y%m%d')`; `None` where it raises `ValueError`:
      no match, "unconverted data remains", year 0, or no such day in the
      month. */
  function ParseYmd(s: string): (r: Option<ValidDate>)
    ensures r.Some? ==> 6 <= |s| <= 8 && AllDigits(s[..4])
  {
    match MatchYmd(s)
    case None => None
    case Some(c) =>
      var d := Date(c.year, c.month, c.day);
      if c.end != |s| || !Valid(d) then None else Some(d)
  }

  // ------------------------------------------------- round trips of the two

  lemma DigitsValue2(s: string)
    requires |s| == 2 && AllDigits(s)
    ensures DigitsValue(s) == 10 * DigitValue(s[0]) + DigitValue(s[1])
  {
    assert DigitsValue(s) == DigitsValue(s[..1]) * 10 + DigitValue(s[1]);
    assert s[..1][..0] == [] && s[..1][0] == s[0];
    assert DigitsValue(s[..1]) == DigitsValue(s[..1][..0]) * 10 + DigitValue(s[0]);
  }

  lemma DigitsValue4(s: string)
    requires |s| == 4 && AllDigits(s)
    ensures DigitsValue(s) == 1000 * DigitValue(s[0]) + 100 * DigitValue(s[1]) + 10 * DigitValue(s[2]) + DigitValue(s[3])
  {
    assert s[..3][..2] == s[..2];
    DigitsValue2(s[..2]);
  }

  lemma Pad4Value(n: nat)
    requires n < 10000
    ensures DigitsValue(Pad4(n)) == n
  {
    DigitsValue4(Pad4(n));
    var q1, d := n / 10, n % 10;
    var q2, c := q1 / 10, q1 % 10;
    var a, b := q2 / 10, q2 % 10;
    DivMod(n, 100, q2, 10 * c + d);
    DivMod(n, 1000, a, 100 * b + 10 * c + d);
  }

  /** Four digits are the zero-padded form of the number they denote. */
  lemma Pad4OfDigits(s: string)
    requires |s| == 4 && AllDigits(s)
    ensures DigitsValue(s) < 10000 && Pad4(DigitsValue(s)) == s
  {
    DigitsValue4(s);
    var n := DigitsValue(s);
    var a, b, c, d := DigitValue(s[0]), DigitValue(s[1]), DigitValue(s[2]), DigitValue(s[3]);
    DivMod(n, 10, 100 * a + 10 * b + c, d);
    DivMod(100 * a + 10 * b + c, 10, 10 * a + b, c);
    DivMod(10 * a + b, 10, a, b);
    DivMod(n, 1000, a, 100 * b + 10 * c + d);
    assert n / 100 == 10 * a + b;
    assert s == [DigitChar(a), DigitChar(b), DigitChar(c), DigitChar(d)];
  }

  /** `strptime(d.strftime('%Y%m%d'), '%Y%m%d') == d` for every date. */
  lemma ParseOfFormatYmd(d: ValidDate)
    ensures ParseYmd(FormatYmd(d)) == Some(d)
  {
    var s := FormatYmd(d);
    assert s[..4] == Pad4(d.year);
    Pad4Value(d.year);
    var months := MonthPieces(s, 4);
    assert s[4] == DigitChar(d.month / 10) && s[5] == DigitChar(d.month % 10);
    assert s[6] == DigitChar(d.day / 10) && s[7] == DigitChar(d.day % 10);
    assert months != [] && months[0] == Piece(d.month, 2);
    assert FirstDay(s, 6) == Some(Piece(d.day, 2));
  }

  /** The month alternative the matcher settled on, and the day after it. */
  lemma ChosenMonth(s: string, year: int, months: seq<Piece>, j: nat) returns (k: nat)
    requires forall i :: 0 <= i < |months| ==> 1 <= months[i].length <= 2
    requires MatchMonthDay(s, year, months, j).Some?
    ensures k < |months|
    ensures var c := MatchMonthDay(s, year, months, j).value;
      var day := FirstDay(s, 4 + months[k].length);
      day.Some? && c.month == months[k].value && c.day == day.value.value &&
      c.end == 4 + months[k].length + day.value.length
    decreases |months| - j
  {
    var day := FirstDay(s, 4 + months[j].length);
    if day.Some? {
      assert MatchMonthDay(s, year, months, j) ==
             Some(Captures(year, months[j].value, day.value.value, 4 + months[j].length + day.value.length));
      k := j;
    } else {
      assert MatchMonthDay(s, year, months, j) == MatchMonthDay(s, year, months, j + 1);
      k := ChosenMonth(s, year, months, j + 1);
    }
  }

  /** A two-character month match in a run of digits is the month's padded form. */
  lemma TwoDigitMonth(s: string, p: Piece)
    requires |s| == 8 && AllDigits(s) && p in MonthPieces(s, 4) && p.length == 2
    ensures 0 <= p.value < 100 && Pad2(p.value) == s[4..6]
  {
  }

  /** A two-character day match in a run of digits is the day's padded form. */
  lemma TwoDigitDay(s: string, p: Piece)
    requires |s| == 8 && AllDigits(s) && FirstDay(s, 6) == Some(p) && p.length == 2
    ensures 0 <= p.value < 100 && Pad2(p.value) == s[6..8]
  {
  }

  /** The converse for the strict form: an eight-digit string that parses is
      exactly the `%Y%m%d` rendering of the date it denotes. */
  lemma FormatOfParseYmd(s: string)
    requires |s| == 8 && AllDigits(s) && ParseYmd(s).Some?
    ensures FormatYmd(ParseYmd(s).value) == s
  {
    var d := ParseYmd(s).value;
    Pad4OfDigits(s[..4]);
    var months := MonthPieces(s, 4);
    var k := ChosenMonth(s, DigitsValue(s[..4]), months, 0);
    var day := FirstDay(s, 4 + months[k].length).value;
    assert months[k].length == 2 && day.length == 2;
    TwoDigitMonth(s, months[k]);
    TwoDigitDay(s, day);
    assert FormatYmd(d) == s[..4] + s[4..6] + s[6..8];
  }

  lemma FormatYmdInjective(d1: ValidDate, d2: ValidDate)
    requires FormatYmd(d1) == FormatYmd(d2)
    ensures d1 == d2
  {
    ParseOfFormatYmd(d1);
    ParseOfFormatYmd(d2);
  }
}
