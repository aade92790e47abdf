/** Worked examples on concrete values: the calendar, the lenient date
    parser, the vacation cost of two trips, and a response whose second
    record aborts the query. */
module Scenarios {
  import opened Wrappers
  import opened PyBuiltins
  import opened PyDate
  import opened Vacation
  import opened QueryFlights
  import opened RecordProperties
  import opened FilterProperties

  /** A calendar without public holidays. */
  predicate NoHolidays(ordinal: int) {
    false
  }

  /** 2025-08-15, Liberation Day, is the only holiday. */
  predicate LiberationDay(ordinal: int) {
    ordinal == 739478
  }

  /** 2025-08-11 is day 739474 of the proleptic Gregorian calendar, a Monday. */
  lemma MondayEleventhOfAugust()
    ensures Ordinal(Date(2025, 8, 11)) == 739474 && Weekday(739474) == 0
    ensures Flight.GetWeekdayKr(Date(2025, 8, 11)) == "월"
  {
  }

  /** The `%Y` digits of the two dates below. */
  lemma YearDigits(s: string)
    requires |s| >= 4 && s[..4] == "2025"
    ensures AllDigits(s[..4]) && DigitsValue(s[..4]) == 2025
  {
    assert "2025"[..3] == "202" && "202"[..2] == "20" && "20"[..1] == "2" && "2"[..0] == [];
  }

  /** `%m` and `%d` also take one digit: seven characters are a full date. */
  lemma OneDigitMonth()
    ensures ParseYmd("2025811") == Some(Date(2025, 8, 11))
  {
    var s := "2025811";
    assert s[..4] == "2025";
    YearDigits(s);
    assert MonthPieces(s, 4) == [Piece(8, 1)];
    assert FirstDay(s, 5) == Some(Piece(11, 2));
    assert MatchYmd(s) == Some(Captures(2025, 8, 11, 7));
  }

  /** The month takes two digits when it can, leaving one for the day. */
  lemma TwoDigitMonthFirst()
    ensures ParseYmd("2025111") == Some(Date(2025, 11, 1))
  {
    var s := "2025111";
    assert s[..4] == "2025";
    YearDigits(s);
    assert MonthPieces(s, 4) == [Piece(11, 2), Piece(1, 1)];
    assert FirstDay(s, 6) == Some(Piece(1, 1));
    assert MatchYmd(s) == Some(Captures(2025, 11, 1, 7));
  }

  /** Dashes are not part of the `%Y%m%d` format. */
  lemma DashedDateRejected()
    ensures ParseYmd("2025-08-11") == None
  {
  }

  /** The days before 2025-08-01, and so the ordinals of the trip dates below. */
  lemma AugustOrdinals(d: ValidDate)
    requires d.year == 2025 && d.month == 8
    ensures Ordinal(d) == 739463 + d.day
  {
    assert DaysBeforeYear(2025) + DaysBeforeMonth(2025, 8) == 739463;
  }

  /** Monday to Wednesday without holidays: three days of vacation. */
  lemma MidweekTrip()
    ensures RequiredVacationDays(Date(2025, 8, 11), Date(2025, 8, 13), NoHolidays) == 3
  {
    AugustOrdinals(Date(2025, 8, 11));
    AugustOrdinals(Date(2025, 8, 13));
    assert Weekday(739474) == 0 && Weekday(739475) == 1 && Weekday(739476) == 2;
    assert NonWorkingCount(NoHolidays, 739474, 1) == 0;
    assert NonWorkingCount(NoHolidays, 739474, 2) == 0;
    assert NonWorkingCount(NoHolidays, 739474, 3) == 0;
  }

  /** Friday the 15th is a holiday, then a weekend: no vacation needed. */
  lemma HolidayWeekendTrip()
    ensures RequiredVacationDays(Date(2025, 8, 15), Date(2025, 8, 17), LiberationDay) == 0
  {
    AugustOrdinals(Date(2025, 8, 15));
    AugustOrdinals(Date(2025, 8, 17));
    assert Weekday(739479) == 5 && Weekday(739480) == 6;
    assert NonWorkingCount(LiberationDay, 739478, 1) == 1;
    assert NonWorkingCount(LiberationDay, 739478, 2) == 2;
    assert NonWorkingCount(LiberationDay, 739478, 3) == 3;
  }

  const Args := QueryArgs("ICN", "CTS", "250000", "24", "3", "1")

  const GoodRecord: RawRecord := map["sdate1" := StrValue("20250815"), "sdate2" := StrValue("20250817"),
                                     "roundTripTime" := IntValue(3), "price" := IntValue(189000),
                                     "airline" := StrValue("7C"), "stops" := IntValue(0)]

  const DashedRecord: RawRecord := GoodRecord["sdate1" := StrValue("2025-08-11")]

  /** The record and command line above, converted. */
  const GoodInfo := FlightInfo("ICN", "CTS", 250000, 24, 3, 1, Date(2025, 8, 15), Date(2025, 8, 17),
                               3, 189000, StrValue("7C"), 0)

  lemma FareParsed(s: string)
    requires s == "250000"
    ensures ParseInt(s) == Some(250000)
  {
    assert s[..1] == "2" && s[..1][..0] == [];
    assert DigitsValue(s[..1]) == 2;
    assert s[..2][..1] == s[..1];
    assert DigitsValue(s[..2]) == 25;
    assert s[..3][..2] == s[..2];
    assert DigitsValue(s[..3]) == 250;
    assert s[..4][..3] == s[..3];
    assert DigitsValue(s[..4]) == 2500;
    assert s[..5][..4] == s[..4];
    assert DigitsValue(s[..5]) == 25000;
    assert s[..5] == s[..|s| - 1];
    assert DigitsValue(s) == 250000;
    ParseIntOfDigits(s);
  }

  lemma DurationParsed(s: string)
    requires s == "24"
    ensures ParseInt(s) == Some(24)
  {
    assert s[..1][..0] == [];
    assert DigitsValue(s[..1]) == 2;
    assert DigitsValue(s) == 24;
    ParseIntOfDigits(s);
  }

  lemma OneDigitParsed(s: string, n: nat)
    requires |s| == 1 && n < 10 && s[0] == DigitChar(n)
    ensures ParseInt(s) == Some(n)
  {
    assert s[..0] == [];
    ParseIntOfDigits(s);
  }

  lemma ArgsConverted()
    ensures ConvertArguments(Args) == Ok(Limits(250000, 24, 3, 1))
  {
    FareParsed(Args.fare);
    DurationParsed(Args.duration);
    OneDigitParsed(Args.day, 3);
    OneDigitParsed(Args.vacation, 1);
  }

  /** The defaults with no `--vacation`: the limit becomes the three days of
      `--day`, so every flight passes without a vacation count. */
  lemma DefaultArguments()
    ensures ApplyVacationDefault(DefaultCliArgs) == QueryArgs("ICN", "CTS", "250000", "24", "3", "3")
    ensures ConvertArguments(ApplyVacationDefault(DefaultCliArgs)) == Ok(Limits(250000, 24, 3, 3))
  {
    var args := ApplyVacationDefault(DefaultCliArgs);
    FareParsed(args.fare);
    DurationParsed(args.duration);
    OneDigitParsed(args.day, 3);
    OneDigitParsed(args.vacation, 3);
  }

  lemma GoodDatesParsed(s1: string, s2: string)
    requires s1 == "20250815" && s2 == "20250817"
    ensures ParseYmd(s1) == Some(Date(2025, 8, 15))
    ensures ParseYmd(s2) == Some(Date(2025, 8, 17))
  {
    YearDigits(s1);
    YearDigits(s2);
  }

  /** The six values `query_flights` reads from the good record. */
  const GoodFields := RawFields(StrValue("20250815"), StrValue("20250817"), IntValue(3), IntValue(189000),
                                StrValue("7C"), IntValue(0))

  lemma GoodFieldsLookedUp()
    ensures LookupFields(GoodRecord) == Ok(GoodFields)
  {
  }

  lemma GoodFieldsConverted(args: QueryArgs, raw: RawFields)
    requires args == Args && raw == GoodFields
    ensures ConvertFields(args, raw) == Ok(GoodInfo)
  {
    ArgsConverted();
    GoodDatesParsed(raw.sdate1.s, raw.sdate2.s);
    assert ConvertDate("sdate1", raw.sdate1) == Ok(Date(2025, 8, 15));
    assert ConvertDate("sdate2", raw.sdate2) == Ok(Date(2025, 8, 17));
    ConvertFieldsSucceeds(args, raw);
  }

  /** The good record converts to `GoodInfo`. */
  lemma GoodRecordDecodes()
    ensures DecodeRecord(Args, GoodRecord) == Ok(GoodInfo)
  {
    GoodFieldsLookedUp();
    GoodFieldsConverted(Args, GoodFields);
  }

  /** The holiday-weekend trip passes the one-day limit. */
  lemma GoodRecordKept()
    ensures DecodeRecord(Args, GoodRecord) == Ok(GoodInfo)
    ensures Check(GoodInfo, LiberationDay) == Some(FlightValue(GoodInfo, Some(0)))
  {
    GoodRecordDecodes();
    HolidayWeekendTrip();
  }

  /** The dashed date is refused once the command line has been converted. */
  lemma DashedRecordFails(args: QueryArgs, data: RawRecord)
    requires args == Args && data == DashedRecord
    ensures DecodeRecord(args, data) == Err(NotADate("sdate1"))
  {
    var raw := GoodFields.(sdate1 := StrValue("2025-08-11"));
    assert LookupFields(data) == Ok(raw);
    ArgsConverted();
    DashedDateRejected();
    assert ConvertDate("sdate1", raw.sdate1) == Err(NotADate("sdate1"));
  }

  /** A malformed second record ends the query with its error; the first,
      acceptable flight is not returned. */
  lemma DashedRecordAborts()
    ensures Filter(Args, [GoodRecord, DashedRecord], LiberationDay) == Err(NotADate("sdate1"))
  {
    var datas := [GoodRecord, DashedRecord];
    GoodRecordDecodes();
    DashedRecordFails(Args, datas[1]);
    FilterStopsAtFirstBadRecord(Args, datas, LiberationDay, 1);
  }
}
