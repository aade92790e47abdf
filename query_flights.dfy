/** The flight filter of `query_flights_core.py`: the airline table, the
    vacation default of the command line, the `Flight` record with its
    vacation calculator and its two renderings, and the `query_flights` loop
    that keeps, in arrival order, the flights the vacation limit allows.

    The search request is not modelled: the loop receives the decoded
    `recommendByCity` list as a sequence of records. */
module QueryFlights {
  import opened Wrappers
  import opened PyBuiltins
  import opened PyDate
  import opened Vacation

  /** `AIRLINE_CODES`: airline code to display name. */
  const AirlineCodes: map<string, string> := map[
    "ZE" := "이스타항공(ZE)",
    "NH" := "전일본공수/ANA(NH)",
    "KE" := "대한항공(KE)",
    "LJ" := "진에어(LJ)",
    "OZ" := "아시아나항공(OZ)",
    "7C" := "제주항공(7C)",
    "MU" := "중국동방항공(MU)",
    "TW" := "티웨이항공(TW)",
    "SC" := "산동항공(SC)",
    "BX" := "에어부산(BX)",
    "FM" := "상하이항공(FM)",
    "VN" := "베트남항공(VN)",
    "CA" := "중국국제항공(CA)",
    "JL" := "일본항공(JL)",
    "SQ" := "싱가포르항공(SQ)",
    "TG" := "타이항공(TG)",
    "CX" := "캐세이퍼시픽(CX)",
    "UA" := "유나이티드항공(UA)",
    "AA" := "아메리칸항공(AA)",
    "DL" := "델타항공(DL)",
    "AF" := "에어프랑스(AF)",
    "LH" := "루프트한자(LH)",
    "EK" := "에미레이트항공(EK)",
    "QR" := "카타르항공(QR)",
    "BA" := "브리티시 에어웨이즈(BA)",
    "TK" := "터키항공(TK)",
    "ET" := "에티하드항공(ET)"
  ]

  /** `AIRLINE_CODES.get(airline, airline)` as the summary line shows it:
      the display name of a known code, otherwise the raw value. */
  function AirlineName(airline: Value): (name: string)
    ensures airline.StrValue? && airline.s in AirlineCodes ==> name == AirlineCodes[airline.s]
    ensures !(airline.StrValue? && airline.s in AirlineCodes) ==> name == StrOf(airline)
  {
    if airline.StrValue? && airline.s in AirlineCodes then AirlineCodes[airline.s] else StrOf(airline)
  }

  // ------------------------------------------------------- the arguments

  /** The parsed command line: every option is a string, and `--vacation`
      has no default. */
  datatype CliArgs = CliArgs(scity: string, ecity: string, fare: string, duration: string, day: string,
                             vacation: Option<string>)

  /** The arguments `query_flights` reads, once `parse_args` has filled in
      the vacation limit. */
  datatype QueryArgs = QueryArgs(scity: string, ecity: string, fare: string, duration: string, day: string,
                                 vacation: string)

  /** The defaults of `DEFAULT_ARGS`. */
  const DefaultCliArgs := CliArgs("ICN", "CTS", "250000", "24", "3", None)

  /** `parse_args`: an absent `--vacation` becomes the `--day` value; every
      other option passes through. */
  function ApplyVacationDefault(cli: CliArgs): (args: QueryArgs)
    ensures args.scity == cli.scity && args.ecity == cli.ecity && args.fare == cli.fare
    ensures args.duration == cli.duration && args.day == cli.day
    ensures cli.vacation.None? ==> args.vacation == args.day
    ensures cli.vacation.Some? ==> args.vacation == cli.vacation.value
  {
    QueryArgs(cli.scity, cli.ecity, cli.fare, cli.duration, cli.day,
              if cli.vacation.None? then cli.day else cli.vacation.value)
  }

  // ---------------------------------------------------- decoding a record

  /** One element of `recommendByCity`, keyed by field name. */
  type RawRecord = map<string, Value>

  /** Why building a `Flight` raised: a `KeyError` on the record, or the
      `int(...)` or `strptime(...)` of the named field failing. */
  datatype Error = MissingKey(key: string) | NotAnInteger(field: string) | NotADate(field: string)

  /** The fields `Flight.__init__` converts and stores. */
  datatype FlightInfo = FlightInfo(
    scity: string, ecity: string, fare: int, duration: int, day: int, vacationLimit: int,
    sdate1: ValidDate, sdate2: ValidDate, roundTripTime: int, price: int, airline: Value, stops: int)

  function ConvertInt(field: string, v: Value): (r: Result<int, Error>)
    ensures r.Ok? <==> IntOf(v).Some?
    ensures r.Ok? ==> r.value == IntOf(v).value
    ensures r.Err? ==> r.error == NotAnInteger(field)
  {
    match IntOf(v)
    case None => Err(NotAnInteger(field))
    case Some(i) => Ok(i)
  }

  /** `datetime.strptime(v, '%Y%m%d')`; a non-string raises `TypeError`. */
  function ConvertDate(field: string, v: Value): (r: Result<ValidDate, Error>)
    ensures r.Ok? <==> v.StrValue? && ParseYmd(v.s).Some?
    ensures r.Ok? ==> r.value == ParseYmd(v.s).value
    ensures r.Err? ==> r.error == NotADate(field)
  {
    if v.StrValue? && ParseYmd(v.s).Some? then Ok(ParseYmd(v.s).value) else Err(NotADate(field))
  }

  /** The six values `query_flights` takes from a record. */
  datatype RawFields = RawFields(sdate1: Value, sdate2: Value, roundTripTime: Value, price: Value,
                                 airline: Value, stops: Value)

  /** `data['sdate1']`, ..., `data['stops']`, evaluated left to right as the
      arguments of the `Flight(...)` call: the first absent key raises
      `KeyError`. */
  function LookupFields(data: RawRecord): (r: Result<RawFields, Error>)
    ensures r.Ok? <==> "sdate1" in data && "sdate2" in data && "roundTripTime" in data &&
                       "price" in data && "airline" in data && "stops" in data
    ensures r.Ok? ==> r.value.airline == data["airline"]
    ensures r.Err? ==> r.error.MissingKey? && r.error.key !in data
  {
    if "sdate1" !in data then Err(MissingKey("sdate1"))
    else if "sdate2" !in data then Err(MissingKey("sdate2"))
    else if "roundTripTime" !in data then Err(MissingKey("roundTripTime"))
    else if "price" !in data then Err(MissingKey("price"))
    else if "airline" !in data then Err(MissingKey("airline"))
    else if "stops" !in data then Err(MissingKey("stops"))
    else Ok(RawFields(data["sdate1"], data["sdate2"], data["roundTripTime"], data["price"],
                      data["airline"], data["stops"]))
  }

  /** The four command-line values `Flight.__init__` converts first. */
  datatype Limits = Limits(fare: int, duration: int, day: int, vacationLimit: int)

  /** `int(fare)`, `int(duration)`, `int(day)`, `int(vacation_limit)`, in
      that order. */
  function ConvertArguments(args: QueryArgs): (r: Result<Limits, Error>)
    ensures r.Ok? <==> ParseInt(args.fare).Some? && ParseInt(args.duration).Some? &&
                       ParseInt(args.day).Some? && ParseInt(args.vacation).Some?
    ensures r.Ok? ==> r.value == Limits(ParseInt(args.fare).value, ParseInt(args.duration).value,
                                        ParseInt(args.day).value, ParseInt(args.vacation).value)
    ensures r.Err? ==> r.error.NotAnInteger?
  {
    var fare :- ConvertInt("fare", StrValue(args.fare));
    var duration :- ConvertInt("duration", StrValue(args.duration));
    var day :- ConvertInt("day", StrValue(args.day));
    var vacationLimit :- ConvertInt("vacation_limit", StrValue(args.vacation));
    Ok(Limits(fare, duration, day, vacationLimit))
  }

  /** The body of `Flight.__init__`: the conversions, in the order it runs
      them; the first failure is the exception that escapes. */
  function ConvertFields(args: QueryArgs, raw: RawFields): (r: Result<FlightInfo, Error>)
    ensures r.Ok? ==> r.value.scity == args.scity && r.value.ecity == args.ecity && r.value.airline == raw.airline
    ensures r.Err? ==> r.error.NotAnInteger? || r.error.NotADate?
  {
    var limits :- ConvertArguments(args);
    var sdate1 :- ConvertDate("sdate1", raw.sdate1);
    var sdate2 :- ConvertDate("sdate2", raw.sdate2);
    var roundTripTime :- ConvertInt("roundTripTime", raw.roundTripTime);
    var price :- ConvertInt("price", raw.price);
    var stops :- ConvertInt("stops", raw.stops);
    Ok(FlightInfo(args.scity, args.ecity, limits.fare, limits.duration, limits.day, limits.vacationLimit,
                  sdate1, sdate2, roundTripTime, price, raw.airline, stops))
  }

  /** What `Flight(args..., data['sdate1'], ...)` does with one record. */
  function DecodeRecord(args: QueryArgs, data: RawRecord): Result<FlightInfo, Error> {
    var raw :- LookupFields(data);
    ConvertFields(args, raw)
  }

  // ------------------------------------------------------ the Flight class

  /** A flight as the list returned by `query_flights` holds it: its fields
      and its `vacation_req`. */
  datatype FlightValue = FlightValue(info: FlightInfo, vacationReq: Option<int>)

  /** Truth of `vacation_req` in `if self.vacation_req`: `None` and `0` are false. */
  predicate IsTruthy(vacationReq: Option<int>) {
    vacationReq.Some? && vacationReq.value != 0
  }

  /** The part of the summary line that only a truthy `vacation_req` shows. */
  function VacationSegment(vacationReq: Option<int>): (s: string)
    ensures IsTruthy(vacationReq) <==> s != []
  {
    if IsTruthy(vacationReq) then "휴가사용: " + IntToString(vacationReq.value) + "일, " else ""
  }

  const WeekdayNames := "월화수목금토일"

  const LinkPrefix := "https://flight.naver.com/flights/international/"
  const LinkSuffix := "?adult=1&fareType=Y"

  /** `{from}-{to}-{date:%Y%m%d}`: one direction of the trip in the link. */
  function Leg(from: string, to: string, date: ValidDate): string {
    from + "-" + to + "-" + FormatYmd(date)
  }

  class Flight {
    const info: FlightInfo
    var vacationReq: Option<int>

    /** `Flight.__init__` once its conversions have succeeded; `vacation_req`
        starts as `None`. */
    constructor (info: FlightInfo)
      ensures this.info == info && vacationReq == None
    {
      this.info := info;
      vacationReq := None;
    }

    function Value(): FlightValue
      reads this
    {
      FlightValue(info, vacationReq)
    }

    /** `calc_required_vacation_days`: counts the weekend and holiday dates
        from `sdate1` to `sdate2` inclusive and stores the rest. */
    method CalcRequiredVacationDays(isHoliday: int -> bool)
      modifies this
      ensures vacationReq == Some(RequiredVacationDays(info.sdate1, info.sdate2, isHoliday))
    {
      var holidayCount := 0;
      var start := Ordinal(info.sdate1);
      var n := Ordinal(info.sdate2) - start + 1;
      var i := 0;
      while i < n
        invariant 0 <= i <= if n < 0 then 0 else n
        invariant holidayCount == NonWorkingCount(isHoliday, start, i)
      {
        var date := start + i;
        assert NonWorkingCount(isHoliday, start, i + 1) ==
               NonWorkingCount(isHoliday, start, i) + (if NonWorking(isHoliday, date) then 1 else 0);
        if isHoliday(date) || Weekday(date) >= 5 {
          holidayCount := holidayCount + 1;
        }
        i := i + 1;
      }
      vacationReq := Some(n - holidayCount);
    }

    /** `get_weekday_kr`: Monday to Sunday are 월, 화, 수, 목, 금, 토, 일. */
    static function GetWeekdayKr(date: ValidDate): (s: string)
      ensures |s| == 1 && s[0] == WeekdayNames[Weekday(Ordinal(date))]
    {
      [WeekdayNames[Weekday(Ordinal(date))]]
    }

    /** The summary line up to where the vacation segment goes. */
    function SummaryHead(): string {
      "출발: " + FormatYmdSlashed(info.sdate1) + "(" + GetWeekdayKr(info.sdate1) + "), 복귀: " +
      FormatYmdSlashed(info.sdate2) + "(" + GetWeekdayKr(info.sdate2) + "), 일정: " +
      IntToString(info.roundTripTime) + "일, "
    }

    /** The summary line after the vacation segment. */
    function SummaryTail(): string {
      "요금: " + FormatThousands(info.price) + "원, 항공사: " + AirlineName(info.airline) +
      ", 경유횟수: " + IntToString(info.stops)
    }

    /** `get_flight_data`: the one-line summary of the flight. */
    function GetFlightData(): string
      reads this
    {
      SummaryHead() + VacationSegment(vacationReq) + SummaryTail()
    }

    /** `get_flight_link`: the booking-site search URL of the round trip. */
    function GetFlightLink(): (s: string)
      ensures |s| > |LinkPrefix| + |LinkSuffix|
      ensures s[..|LinkPrefix|] == LinkPrefix && s[|s| - |LinkSuffix|..] == LinkSuffix
    {
      LinkPrefix + Leg(info.scity, info.ecity, info.sdate1) + "/" + Leg(info.ecity, info.scity, info.sdate2) + LinkSuffix
    }
  }

  /** The vacation segment of the summary appears exactly for a truthy
      `vacation_req`: a flight that was never checked and one that costs no
      vacation read alike. */
  lemma FlightDataShowsVacation(f: Flight)
    ensures IsTruthy(f.vacationReq) ==>
              f.GetFlightData() == f.SummaryHead() + ("휴가사용: " + IntToString(f.vacationReq.value) + "일, ") + f.SummaryTail()
    ensures !IsTruthy(f.vacationReq) ==> f.GetFlightData() == f.SummaryHead() + f.SummaryTail()
  {
    if !IsTruthy(f.vacationReq) {
      assert f.SummaryHead() + VacationSegment(f.vacationReq) == f.SummaryHead();
    }
  }

  // ------------------------------------------------------- the filter loop

  /** The vacation check of the loop body for a flight built from `info`:
      when the vacation limit is below the trip length, compute its vacation
      cost and drop it (`None`) if the cost exceeds the limit. */
  function Check(info: FlightInfo, isHoliday: int -> bool): Option<FlightValue> {
    if info.vacationLimit < info.day then
      var required := RequiredVacationDays(info.sdate1, info.sdate2, isHoliday);
      if required > info.vacationLimit then None else Some(FlightValue(info, Some(required)))
    else
      Some(FlightValue(info, None))
  }

  /** One pass of the loop body of `query_flights`: build the flight, then
      check it. `Ok(None)` is a dropped flight; `Err` is the exception that
      ends the whole query. */
  function Admit(args: QueryArgs, data: RawRecord, isHoliday: int -> bool): Result<Option<FlightValue>, Error> {
    match DecodeRecord(args, data)
    case Err(e) => Err(e)
    case Ok(info) => Ok(Check(info, isHoliday))
  }

  /** `Admit` fails exactly when the record cannot be converted, with the
      same error; otherwise it is the vacation check of the flight. */
  lemma AdmitDecodes(args: QueryArgs, data: RawRecord, isHoliday: int -> bool)
    ensures Admit(args, data, isHoliday).Err? <==> DecodeRecord(args, data).Err?
    ensures DecodeRecord(args, data).Err? ==> Admit(args, data, isHoliday).error == DecodeRecord(args, data).error
    ensures DecodeRecord(args, data).Ok? ==> Admit(args, data, isHoliday).value == Check(DecodeRecord(args, data).value, isHoliday)
  {
  }

  /** The outcome of the loop body for every record, each on its own. */
  function Outcomes(args: QueryArgs, datas: seq<RawRecord>, isHoliday: int -> bool): (out: seq<Result<Option<FlightValue>, Error>>)
    ensures |out| == |datas|
  {
    if datas == [] then [] else [Admit(args, datas[0], isHoliday)] + Outcomes(args, datas[1..], isHoliday)
  }

  lemma {:induction false} OutcomeAt(args: QueryArgs, datas: seq<RawRecord>, isHoliday: int -> bool, k: nat)
    requires k < |datas|
    ensures Outcomes(args, datas, isHoliday)[k] == Admit(args, datas[k], isHoliday)
  {
    if k > 0 {
      OutcomeAt(args, datas[1..], isHoliday, k - 1);
    }
  }

  /** `acc` followed by the outcome of the rest of the loop. */
  function Prepend(acc: seq<FlightValue>, rest: Result<seq<FlightValue>, Error>): Result<seq<FlightValue>, Error> {
    match rest
    case Err(e) => Err(e)
    case Ok(r) => Ok(acc + r)
  }

  /** The kept flight of one outcome, as a list of zero or one. */
  function KeptOf(kept: Option<FlightValue>): seq<FlightValue> {
    if kept.Some? then [kept.value] else []
  }

  /** Running the loop from the `i`-th outcome on: the first error ends it,
      the kept flights are collected in order. */
  function Collect(outcomes: seq<Result<Option<FlightValue>, Error>>, i: nat): Result<seq<FlightValue>, Error>
    decreases |outcomes| - i
  {
    if i >= |outcomes| then Ok([])
    else
      match outcomes[i]
      case Err(e) => Err(e)
      case Ok(kept) => Prepend(KeptOf(kept), Collect(outcomes, i + 1))
  }

  /** What `query_flights` returns for the records `datas`, or the error it raises. */
  function Filter(args: QueryArgs, datas: seq<RawRecord>, isHoliday: int -> bool): Result<seq<FlightValue>, Error> {
    Collect(Outcomes(args, datas, isHoliday), 0)
  }

  function Values(flights: seq<Flight>): (vs: seq<FlightValue>)
    reads flights
    ensures |vs| == |flights| && forall k :: 0 <= k < |flights| ==> vs[k] == flights[k].Value()
  {
    seq(|flights|, k requires 0 <= k < |flights| reads flights => flights[k].Value())
  }

  /** One step of the loop: the outcome at `i` either ends the query with its
      error, or contributes what it keeps to the flights before it. */
  lemma CollectStep(outcomes: seq<Result<Option<FlightValue>, Error>>, i: nat, acc: seq<FlightValue>)
    requires i < |outcomes|
    ensures outcomes[i].Err? ==> Prepend(acc, Collect(outcomes, i)) == Err(outcomes[i].error)
    ensures outcomes[i].Ok? ==>
              Prepend(acc, Collect(outcomes, i)) == Prepend(acc + KeptOf(outcomes[i].value), Collect(outcomes, i + 1))
  {
    var rest := Collect(outcomes, i + 1);
    if outcomes[i].Ok? && rest.Ok? {
      var head := KeptOf(outcomes[i].value);
      assert acc + (head + rest.value) == (acc + head) + rest.value;
    }
  }

  lemma PrependNothing(rest: Result<seq<FlightValue>, Error>)
    ensures Prepend([], rest) == rest
  {
    if rest.Ok? {
      assert [] + rest.value == rest.value;
    }
  }

  /** Appending a flight appends its value. */
  lemma ValuesAppend(flights: seq<Flight>, flight: Flight)
    ensures Values(flights + [flight]) == Values(flights) + [flight.Value()]
  {
  }

  /** The body of the `for data in datas` loop: build the flight from one
      record and run the vacation check on it; `Ok(None)` is the
      `continue`. */
  method AdmitRecord(args: QueryArgs, data: RawRecord, isHoliday: int -> bool)
    returns (r: Result<Option<Flight>, Error>)
    ensures r.Err? ==> Admit(args, data, isHoliday) == Err(r.error)
    ensures r.Ok? ==> Admit(args, data, isHoliday) == Ok(if r.value.Some? then Some(r.value.value.Value()) else None)
    ensures r.Ok? && r.value.Some? ==> fresh(r.value.value)
  {
    AdmitDecodes(args, data, isHoliday);
    var decoded := DecodeRecord(args, data);
    if decoded.Err? {
      return Err(decoded.error);
    }
    var flight := new Flight(decoded.value);
    if flight.info.vacationLimit < flight.info.day {
      flight.CalcRequiredVacationDays(isHoliday);
      if flight.vacationReq.value > flight.info.vacationLimit {
        return Ok(None);
      }
    }
    return Ok(Some(flight));
  }

  /** `query_flights` after the search request: one new `Flight` per record,
      in order; a record that cannot be converted ends the query with its
      error. */
  method QueryFlights(args: QueryArgs, datas: seq<RawRecord>, isHoliday: int -> bool)
    returns (r: Result<seq<Flight>, Error>)
    ensures r.Err? <==> Filter(args, datas, isHoliday).Err?
    ensures r.Err? ==> r.error == Filter(args, datas, isHoliday).error
    ensures r.Ok? ==> Values(r.value) == Filter(args, datas, isHoliday).value
    ensures r.Ok? ==> forall k :: 0 <= k < |r.value| ==> fresh(r.value[k])
    ensures r.Ok? ==> forall j, k :: 0 <= j < k < |r.value| ==> r.value[j] != r.value[k]
  {
    ghost var outcomes := Outcomes(args, datas, isHoliday);
    var flights: seq<Flight> := [];
    PrependNothing(Collect(outcomes, 0));
    for i := 0 to |datas|
      invariant Filter(args, datas, isHoliday) == Prepend(Values(flights), Collect(outcomes, i))
      invariant forall k :: 0 <= k < |flights| ==> fresh(flights[k])
      invariant forall j, k :: 0 <= j < k < |flights| ==> flights[j] != flights[k]
    {
      ghost var before := Values(flights);
      CollectStep(outcomes, i, before);
      OutcomeAt(args, datas, isHoliday, i);
      var admitted := AdmitRecord(args, datas[i], isHoliday);
      if admitted.Err? {
        return Err(admitted.error);
      }
      assert Values(flights) == before;
      if admitted.value.Some? {
        var flight := admitted.value.value;
        assert outcomes[i] == Ok(Some(flight.Value()));
        ValuesAppend(flights, flight);
        flights := flights + [flight];
      } else {
        assert outcomes[i] == Ok(None);
        assert before + KeptOf(None) == before;
      }
    }
    return Ok(flights);
  }
}
