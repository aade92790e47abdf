# Flight filter of `query_flights_core.py`, modelled in Dafny

The program asks a flight-search service for round trips between two
airports. It turns each returned record into a `Flight` and keeps the
flights whose cost in personal vacation days stays within the traveller's
limit. It then prints, for each kept flight, a one-line summary and a
booking link.

This project models the part after the search request:

- **Command line.** The arguments, with the rule that an absent `--vacation`
  takes the value of `--day`.
- **`Flight.__init__`.** The record's keys are looked up, then
  `int(...)` and `datetime.strptime(..., '%Y%m%d')` follow Python's own
  rules (`py_builtins.dfy`, `py_date.dfy`).
- **`calc_required_vacation_days`.** A loop over the trip's dates that
  counts weekends and public holidays (`vacation.dfy` holds the function it
  is proved against).
- **`query_flights`.** The loop that builds one `Flight` per record and
  drops the ones over the vacation limit. It is modelled as a method over
  `Flight` objects next to the pure function `Filter`, which states what
  the loop returns.
- **Presentation.** `get_weekday_kr`, `get_flight_data` with the airline
  table and the `{:,}` price format, and `get_flight_link`.

The holiday calendar is a parameter `isHoliday: int -> bool` on day
ordinals (0001-01-01 is day 1, as `date.toordinal()` counts). The search
response is a parameter too: a sequence of records, each a map from field
name to a JSON scalar.

Modules:

- `Wrappers`: `Option` and `Result`.
- `PyBuiltins`: `int()`, `str()` and `format(n, ',')`.
- `PyDate`: the calendar, `strptime` and `strftime`.
- `Vacation`: the vacation count and its properties.
- `QueryFlights`: the airline table, the arguments, record decoding, the
  `Flight` class, the vacation check, the loop and `Filter`.
- `RecordProperties`: facts about decoding a record.
- `FilterProperties`: facts about the list `query_flights` returns.
- `FlightPresentation`: facts about the airline names, the weekday labels and the link.
- `Scenarios`: worked examples on concrete dates and records.

## Behaviour of the code worth knowing

- **A malformed record aborts the query.** Each `Flight` is built with
  no `try`, so the first `KeyError`, `ValueError` or `TypeError` (line 161)
  ends `query_flights`, and no list is returned. `FilterStopsAtFirstBadRecord`
  shows this. So does `DashedRecordAborts`, where a good record followed by
  a bad one gives the error and not the good flight.
- **Dates are not parsed strictly as eight digits.** `strptime` with
  `%Y%m%d` also takes one-digit months and days, so anything from six to
  eight characters can parse (`OneDigitMonth`, `TwoDigitMonthFirst`). The
  model follows the regular expression that `strptime` builds. That
  includes backtracking over the month's alternatives and taking the first
  day alternative that matches.
- **Reversed dates are accepted.** When `sdate2` is before `sdate1`, the loop
  runs no times and `vacation_req` is the span itself, which is 0 or less
  (`ReversedTrip`). A flight whose vacation limit is 0 or more is then kept
  (`ReversedTripKept`), so the stored count can be negative.
- **City codes pass through unchanged.** They are not normalised to upper
  case: `ConvertFields` keeps `scity` and `ecity` exactly as given.
- **The arguments are converted per record.** The keys are looked up
  before any conversion, because they are arguments of the `Flight(...)`
  call. A missing key therefore wins over a bad argument
  (`MissingKeyIsFirstAbsent`). Unparsable arguments fail only once there is
  a record: an empty response gives an empty list (`BadArgumentFailsOnFirstRecord`).
- **The short-circuit uses `vacation_limit >= day`.** Here `day` is the
  requested trip length taken from the command line, not the span of the
  record's dates. `vacation_req` stays `None` on flights kept this way.
- **The vacation segment of the summary depends on truthiness.** It
  appears only for a truthy `vacation_req`. A negative value is shown,
  and a computed 0 is not (`FlightDataShowsVacation`).

## Model

| member | source | states |
|---|---|---|
| FlightPresentation.AirlineNameShowsCode | query_flights_core.py:140 | a known string code shows as a display name ending in that code in parentheses, never as the bare code; any other string shows as itself |
| FlightPresentation.KnownAirlineNamesDistinct | query_flights_core.py:16-44 | two known codes with the same display name are the same code |
| QueryFlights.LookupFields | query_flights_core.py:161 | the six fields are read exactly when all six keys are present, `airline` unconverted; otherwise the error is a `KeyError` naming a missing key |
| RecordProperties.ConvertIntOfValue | query_flights_core.py:120-123 | a string field converts exactly when, with surrounding white space and one sign removed, it is a PEP 515 digit group, and otherwise fails naming the field; an integer converts to itself, and a printed integer reads back as that integer |
| RecordProperties.ConvertDateOfFormatted | query_flights_core.py:118-119 | a date written with `%Y%m%d` converts back to that date |
| RecordProperties.ConvertDateOfDigits | query_flights_core.py:118-119 | an eight-digit string that converts is the `%Y%m%d` rendering of its date; an integer value never converts, whatever its digits |
| QueryFlights.ConvertArguments | query_flights_core.py:113-116 | the four arguments convert exactly when `int()` accepts each, giving the four parsed values; any failure is an `int()` error |
| QueryFlights.ConvertFields | query_flights_core.py:110-123 | a converted record keeps the cities and the airline value as given; a failure is an `int()` or `strptime` error |
| QueryFlights.Flight.constructor | query_flights_core.py:110-123 | a new flight holds the converted fields and `vacation_req` is `None` |
| QueryFlights.Flight.CalcRequiredVacationDays | query_flights_core.py:125-134 | after the loop, `vacation_req` is the trip's span minus the number of weekend or holiday dates in it |
| QueryFlights.VacationSegment | query_flights_core.py:140 | the vacation segment is non-empty exactly when `vacation_req` is truthy |
| QueryFlights.FlightDataShowsVacation | query_flights_core.py:139-140 | the summary is head, `휴가사용: N일, `, tail for a truthy `vacation_req`, and head then tail when it is `None` or 0 |
| FlightPresentation.FlightLinkLegs | query_flights_core.py:142-143 | for city codes without `/`, the link is the site path, the outbound leg `scity-ecity-sdate1`, a `/`, the return leg `ecity-scity-sdate2` and `?adult=1&fareType=Y`, and reading it back at its first `/` gives the two legs in that order |
| QueryFlights.AdmitDecodes | query_flights_core.py:160-169 | one pass of the loop body fails exactly when the record fails to convert, with its error; otherwise it is the vacation check of the converted flight |
| QueryFlights.AdmitRecord | query_flights_core.py:160-169 | the loop body on objects agrees with that pass: the same error, a new flight whose value is the kept flight, or nothing when it is dropped |
| QueryFlights.QueryFlights | query_flights_core.py:159-171 | the method fails exactly when `Filter` does, with the same error; otherwise its new, pairwise distinct flights have exactly the values `Filter` returns, in order |
| Vacation.RequiredVacationDaysBounds | query_flights_core.py:128-134 | for dates in order, the vacation needed lies between 0 and the inclusive span |
| Vacation.RequiredVacationDaysAreWorkingDays | query_flights_core.py:127-134 | for dates in order, the vacation needed is the size of the set of working days in the trip |
| Vacation.SameDayTrip | query_flights_core.py:128-134 | a one-day trip costs 1 if that day is a working day and 0 otherwise |
| Vacation.WeekendTripIsFree | query_flights_core.py:130 | a trip made only of Saturdays and Sundays costs 0, whatever the calendar |
| Vacation.WeekendHolidaysIrrelevant | query_flights_core.py:130 | two calendars that agree on the Monday-to-Friday dates of the trip give the same cost |
| Vacation.MoreHolidaysCostLess | query_flights_core.py:130 | a calendar with more holidays in the trip never raises its cost |
| FilterProperties.ReversedTripKept | query_flights_core.py:164-169 | with the return before the departure and a vacation limit of 0 or more, the flight is kept, and a computed `vacation_req` is 0 or less |
| Vacation.ReversedTrip | query_flights_core.py:128-134 | with the return before the departure, the stored value is the span, which is 0 or less |
| Vacation.WeekHasTwoWeekendDays | query_flights_core.py:130 | seven consecutive days with no holiday hold exactly two weekend days |
| Vacation.FullWeekCostsFive | query_flights_core.py:128-134 | a seven-day trip with no holidays costs five days |
| FilterProperties.CheckShortCircuit | query_flights_core.py:164-169 | with the limit at least the trip length, the flight is kept and `vacation_req` stays `None` |
| FilterProperties.CheckVacation | query_flights_core.py:164-169 | below the trip length, the flight is kept exactly when its computed cost is at most the limit, and it carries that cost |
| FilterProperties.CheckKept | query_flights_core.py:164-169 | a kept flight has its fields unchanged; `vacation_req` is `None` exactly when the limit covered the trip, and otherwise within the limit |
| FilterProperties.FilterEmpty | query_flights_core.py:159-171 | an empty response gives an empty list |
| FilterProperties.FilterFailsIff | query_flights_core.py:160-161 | the query fails exactly when some record cannot be converted |
| FilterProperties.FilterStopsAtFirstBadRecord | query_flights_core.py:160-161 | the error of the query is that of the first record that fails, whatever follows |
| FilterProperties.FilterSound | query_flights_core.py:159-171 | every returned flight is the converted flight of some record and passed the vacation check |
| FilterProperties.FilterComplete | query_flights_core.py:159-171 | every record whose flight passes the vacation check is in the result |
| FilterProperties.FilterWithinLimit | query_flights_core.py:164-169 | each returned flight either had a limit covering the trip and no cost, or a computed cost at most the limit |
| FilterProperties.FilterIsSubsequence | query_flights_core.py:159-171 | the result lists the kept records' flights at strictly increasing record positions, and a position is listed exactly when that record's flight passes |
| FilterProperties.FilterLength | query_flights_core.py:159-171 | the result has at most one flight per record |
| FilterProperties.FilterConcat | query_flights_core.py:160-169 | filtering two responses back to back is filtering the first, then the second, in that order |
| FilterProperties.FilterSingle | query_flights_core.py:160-169 | one record yields its error, or the list of its kept flight, or nothing |
| FilterProperties.FilterKeepsAll | query_flights_core.py:164-169 | with the vacation argument at least the day argument and all records valid, every record's flight is returned in order with `vacation_req` `None` |
| FilterProperties.DefaultVacationKeepsAll | query_flights_core.py:189-190 | without `--vacation`, a query that succeeds returns one flight per record |
| FilterProperties.BadArgumentFailsOnFirstRecord | query_flights_core.py:161 | an unparsable fare makes the query fail exactly when the response is not empty |
| RecordProperties.MissingKeyIsFirstAbsent | query_flights_core.py:161 | a `KeyError` is raised exactly when a key is absent, whatever the arguments, and it names the first absent key in call order |
| RecordProperties.DecodedArguments | query_flights_core.py:113-116 | a converted flight holds `int()` of the four arguments, and an argument `int()` refuses makes every record fail |
| RecordProperties.ConvertFieldsSucceeds | query_flights_core.py:110-123 | conversion succeeds exactly when each of its conversions does, and the flight holds their results |
| RecordProperties.ConvertArgumentsFailsAt | query_flights_core.py:113-116 | the arguments fail with the error of argument n (`fare`, `duration`, `day`, `vacation_limit`, in that order) exactly when `int()` refuses argument n and accepts every one before it |
| RecordProperties.ConvertFieldsFirstFailure | query_flights_core.py:113-123 | `__init__` fails exactly when one of its nine conversions fails, and the error is that of the first failing one in call order |
| RecordProperties.ConvertFieldsFailsAt | query_flights_core.py:113-123 | `__init__` fails with the error of conversion n (`fare`, `duration`, `day`, `vacation_limit`, `sdate1`, `sdate2`, `roundTripTime`, `price`, `stops`) exactly when conversion n fails and every one before it succeeds |
| RecordProperties.DecodeOfEncode | query_flights_core.py:110-123 | the record and command line written out from a flight's fields convert back to that flight |
| FlightPresentation.WeekdayKrIdentifiesWeekday | query_flights_core.py:136-137 | two dates get the same label exactly when they fall on the same weekday |
| FlightPresentation.WeekdayKrOfNextDate | query_flights_core.py:136-137 | the next day's label is the next in 월화수목금토일, wrapping from 일 to 월 |
| FlightPresentation.LegDeterminesDate | query_flights_core.py:143 | for given cities, one leg of the link determines its date |
| FlightPresentation.FlightLinkDeterminesDates | query_flights_core.py:142-143 | for a given route, equal links mean equal departure and return dates |
| PyBuiltins.DigitGroupValueIsGroup | query_flights_core.py:113-123 | the digit scan used by `int()` accepts exactly digits with single underscores between them, with the value of the digits once the underscores are removed |
| PyBuiltins.ParseIntOfDigits | query_flights_core.py:113-116 | `int()` of a plain string of digits is its decimal value |
| PyBuiltins.ParseIntOfIntToString | query_flights_core.py:113-116 | `int(str(n)) == n` for every integer |
| PyBuiltins.FormatThousandsDigits | query_flights_core.py:140 | deleting the commas from `f"{n:,}"` gives `str(n)` |
| PyBuiltins.GroupThousandsShape | query_flights_core.py:140 | for a price of 0 or more, a comma stands exactly where a multiple of four characters remain to the end, every other character is a digit, and the first group has one to three digits |
| PyBuiltins.FormatThousandsShape | query_flights_core.py:140 | `f"{n:,}"` of a price of 0 or more has that layout; a negative price is `-` followed by the layout of its magnitude, so no comma follows the sign |
| PyBuiltins.ParseIntMeaning | query_flights_core.py:113-123 | `int()` accepts a string exactly when, with surrounding white space and one sign removed, it is a PEP 515 digit group, whose digits give the value, negated after `-` |
| PyDate.OrdinalOfNextDate | query_flights_core.py:129 | `d + timedelta(days=1)` is the next calendar date, and its ordinal is one more |
| PyDate.ParseYmd | query_flights_core.py:118-119 | a string that parses has six to eight characters and starts with four digits |
| PyDate.ParseOfFormatYmd | query_flights_core.py:118-119 | `strptime(d.strftime('%Y%m%d'), '%Y%m%d') == d` for every date |
| PyDate.FormatOfParseYmd | query_flights_core.py:118-119 | an eight-digit string that parses is the `%Y%m%d` rendering of its date |
| PyDate.FormatYmdInjective | query_flights_core.py:143 | two dates with the same `%Y%m%d` rendering are equal |
| PyDate.FormatYmdSlashed | query_flights_core.py:140 | the `%Y/%m/%d` rendering is the `%Y%m%d` one with slashes after the year and the month |
| Scenarios.MondayEleventhOfAugust | query_flights_core.py:136-137 | 2025-08-11 is ordinal 739474, a Monday, labelled 월 |
| Scenarios.OneDigitMonth | query_flights_core.py:118-119 | `"2025811"` parses as 2025-08-11 |
| Scenarios.TwoDigitMonthFirst | query_flights_core.py:118-119 | `"2025111"` parses as 2025-11-01: the two-digit month is tried first |
| Scenarios.DashedDateRejected | query_flights_core.py:118-119 | `"2025-08-11"` does not parse |
| Scenarios.MidweekTrip | query_flights_core.py:125-134 | Monday to Wednesday with no holidays costs three days |
| Scenarios.HolidayWeekendTrip | query_flights_core.py:125-134 | a holiday Friday followed by a weekend costs no vacation |
| Scenarios.GoodRecordKept | query_flights_core.py:161-169 | a concrete record converts, and its flight passes a one-day limit with `vacation_req` 0 |
| Scenarios.DefaultArguments | query_flights_core.py:7-14 | with the defaults and no `--vacation`, the arguments convert to fare 250000, duration 24, day 3 and vacation limit 3 |
| Scenarios.DashedRecordAborts | query_flights_core.py:160-161 | a good record followed by one with a dashed date fails the whole query with that date's error |

## Left out

- `request_flights` and the reading of `response.json()['data']['recommendByCity']` (lines 46-105 and 155-157)
  are an HTTP call to a remote service. The model takes the decoded list of records as input.
- `holidays.KR` and its seeding from `datetime.now()` (line 108) are a foreign library and the clock. The
  calendar is the predicate parameter `isHoliday`.
- `argparse`, `CustomArgumentParser.error` with `sys.exit`, `printArgs` and the `__main__` block (lines
  145-151, 173-188 and 191-208) are console I/O. Only the `--vacation` default is modelled.
- `query_flights_gui.py` is not part of this model: it is a PyQt6 window.
- Record values are JSON scalars only (`None`, booleans, integers, strings). JSON floats, arrays and objects
  are not modelled, so `int()` truncating a float is missing.
- `int()` and `strptime` are modelled for ASCII only. Python also accepts Unicode digits and Unicode white space.
  The limit on the number of digits `int()` converts is not modelled.
- Python's exception classes are merged into `Error`. `KeyError` is `MissingKey`. A `ValueError` or `TypeError`
  from `int()` is `NotAnInteger`. One from `strptime` is `NotADate`.
- `strftime('%Y')` for years below 1000 depends on the platform. The model always pads the year to four digits.
- QueryFlights.Flight.GetFlightData: its contract is stated by `FlightDataShowsVacation` rather than by an
  `ensures` of its own. The parts come from `AirlineName`, `FormatThousands` and `GetWeekdayKr`.
- A `Flight` holds its converted fields as one immutable value. Only `vacation_req` is a mutable field, because
  it is the only field the program changes after construction.
