/** How one element of `recommendByCity` becomes a `Flight`: the six keys
    are looked up before the constructor runs, the first absent one raising
    `KeyError`; then the command-line values and the record's fields are
    converted in the order `Flight.__init__` lists them. */
module RecordProperties {
  import opened Wrappers
  import opened PyBuiltins
  import opened PyDate
  import opened QueryFlights

  /** The keys in the order the call `Flight(...)` evaluates them. */
  const RecordKeys: seq<string> := ["sdate1", "sdate2", "roundTripTime", "price", "airline", "stops"]

  /** A `KeyError` is raised exactly when a key is absent, and it names the
      first absent key, whatever the command line holds. */
  lemma MissingKeyIsFirstAbsent(args: QueryArgs, data: RawRecord)
    ensures (DecodeRecord(args, data).Err? && DecodeRecord(args, data).error.MissingKey?) <==>
            exists k :: 0 <= k < |RecordKeys| && RecordKeys[k] !in data
    ensures DecodeRecord(args, data).Err? && DecodeRecord(args, data).error.MissingKey? ==>
              exists n :: 0 <= n < |RecordKeys| && DecodeRecord(args, data).error.key == RecordKeys[n] &&
                          forall j :: 0 <= j < n ==> RecordKeys[j] in data
  {
    var raw := LookupFields(data);
    if raw.Ok? {
      assert DecodeRecord(args, data) == ConvertFields(args, raw.value);
      assert forall k :: 0 <= k < |RecordKeys| ==> RecordKeys[k] in data;
    } else {
      var n := if "sdate1" !in data then 0 else if "sdate2" !in data then 1
               else if "roundTripTime" !in data then 2 else if "price" !in data then 3
               else if "airline" !in data then 4 else 5;
      assert raw.error.key == RecordKeys[n] && RecordKeys[n] !in data;
      assert forall j :: 0 <= j < n ==> RecordKeys[j] in data;
    }
  }

  /** A converted record carries the arguments, parsed, and any argument
      `int()` refuses makes every record fail. */
  lemma DecodedArguments(args: QueryArgs, data: RawRecord)
    ensures DecodeRecord(args, data).Ok? ==>
              var info := DecodeRecord(args, data).value;
              ParseInt(args.fare) == Some(info.fare) && ParseInt(args.duration) == Some(info.duration) &&
              ParseInt(args.day) == Some(info.day) && ParseInt(args.vacation) == Some(info.vacationLimit)
    ensures (ParseInt(args.fare).None? || ParseInt(args.duration).None? ||
             ParseInt(args.day).None? || ParseInt(args.vacation).None?) ==> DecodeRecord(args, data).Err?
  {
    var raw := LookupFields(data);
    if raw.Ok? {
      assert DecodeRecord(args, data) == ConvertFields(args, raw.value);
      ConvertFieldsSucceeds(args, raw.value);
    }
  }

  /** `Flight.__init__` succeeds exactly when each of its conversions does,
      and then holds their results. */
  lemma ConvertFieldsSucceeds(args: QueryArgs, raw: RawFields)
    ensures ConvertFields(args, raw).Ok? <==>
              ConvertArguments(args).Ok? && ConvertDate("sdate1", raw.sdate1).Ok? &&
              ConvertDate("sdate2", raw.sdate2).Ok? && IntOf(raw.roundTripTime).Some? &&
              IntOf(raw.price).Some? && IntOf(raw.stops).Some?
    ensures ConvertFields(args, raw).Ok? ==>
              var limits := ConvertArguments(args).value;
              ConvertFields(args, raw).value ==
                FlightInfo(args.scity, args.ecity, limits.fare, limits.duration, limits.day, limits.vacationLimit,
                           ConvertDate("sdate1", raw.sdate1).value, ConvertDate("sdate2", raw.sdate2).value,
                           IntOf(raw.roundTripTime).value, IntOf(raw.price).value, raw.airline,
                           IntOf(raw.stops).value)
  {
  }

  /** The names of the nine conversions of `Flight.__init__`, in the order
      it runs them: the four command-line values, the two dates, then the
      three integers of the record. */
  const ConversionFields: seq<string> :=
    ["fare", "duration", "day", "vacation_limit", "sdate1", "sdate2", "roundTripTime", "price", "stops"]

  /** The values the first four conversions take. */
  function ArgumentInputs(args: QueryArgs): (vs: seq<Value>)
    ensures |vs| == 4
  {
    [StrValue(args.fare), StrValue(args.duration), StrValue(args.day), StrValue(args.vacation)]
  }

  /** The values the nine conversions take, in the same order. */
  function ConversionInputs(args: QueryArgs, raw: RawFields): (vs: seq<Value>)
    ensures |vs| == |ConversionFields| && vs[..4] == ArgumentInputs(args)
  {
    ArgumentInputs(args) + [raw.sdate1, raw.sdate2, raw.roundTripTime, raw.price, raw.stops]
  }

  /** Conversion `n` accepts `v`: `strptime` for the two dates, `int()` for
      the others. */
  predicate Converts(n: nat, v: Value) {
    if n == 4 || n == 5 then v.StrValue? && ParseYmd(v.s).Some? else IntOf(v).Some?
  }

  /** The exception conversion `n` raises when it fails. */
  function ConversionError(n: nat): Error
    requires n < |ConversionFields|
  {
    if n == 4 || n == 5 then NotADate(ConversionFields[n]) else NotAnInteger(ConversionFields[n])
  }

  /** Distinct conversions raise distinct errors. */
  lemma ConversionErrorsDistinct(i: nat, j: nat)
    requires i < |ConversionFields| && j < |ConversionFields| && ConversionError(i) == ConversionError(j)
    ensures i == j
  {
    assert ConversionFields[i] == ConversionFields[j];
    assert |ConversionFields[i]| == |ConversionFields[j]|;
    assert ConversionFields[i][|ConversionFields[i]| - 1] == ConversionFields[j][|ConversionFields[j]| - 1];
  }

  /** The position of the first `false` in `oks`, or `|oks|` when there is
      none. */
  function FirstFailure(oks: seq<bool>): (k: nat)
    ensures k <= |oks| && (forall m :: 0 <= m < k ==> oks[m]) && (k < |oks| ==> !oks[k])
  {
    if oks == [] || !oks[0] then 0 else 1 + FirstFailure(oks[1..])
  }

  /** Which of the four argument conversions succeed. */
  function ArgumentOks(args: QueryArgs): (oks: seq<bool>)
    ensures |oks| == 4 && forall n :: 0 <= n < 4 ==> oks[n] == Converts(n, ArgumentInputs(args)[n])
  {
    var vs := ArgumentInputs(args);
    seq(4, n requires 0 <= n < 4 => Converts(n, vs[n]))
  }

  /** Which of the nine conversions succeed. */
  function ConversionOks(args: QueryArgs, raw: RawFields): (oks: seq<bool>)
    ensures |oks| == |ConversionFields|
    ensures forall n :: 0 <= n < |ConversionFields| ==> oks[n] == Converts(n, ConversionInputs(args, raw)[n])
  {
    var vs := ConversionInputs(args, raw);
    seq(|ConversionFields|, n requires 0 <= n < |ConversionFields| => Converts(n, vs[n]))
  }

  lemma ConvertArgumentsFirstFailure(args: QueryArgs)
    ensures ConvertArguments(args).Err? <==> FirstFailure(ArgumentOks(args)) < 4
    ensures ConvertArguments(args).Err? ==> ConvertArguments(args).error == ConversionError(FirstFailure(ArgumentOks(args)))
  {
    var oks := ArgumentOks(args);
    assert oks[0] == ParseInt(args.fare).Some? && oks[1] == ParseInt(args.duration).Some?;
    assert oks[2] == ParseInt(args.day).Some? && oks[3] == ParseInt(args.vacation).Some?;
  }

  /** The error of the argument conversions is that of the first argument
      `int()` refuses: `int(fare)` runs first, `int(vacation_limit)` last. */
  lemma ConvertArgumentsFailsAt(args: QueryArgs, n: nat)
    requires n < 4
    ensures ConvertArguments(args) == Err(ConversionError(n)) <==>
              !Converts(n, ArgumentInputs(args)[n]) &&
              forall m :: 0 <= m < n ==> Converts(m, ArgumentInputs(args)[m])
  {
    var oks := ArgumentOks(args);
    ConvertArgumentsFirstFailure(args);
    var k := FirstFailure(oks);
    if ConvertArguments(args) == Err(ConversionError(n)) {
      ConversionErrorsDistinct(k, n);
    }
    if !oks[n] && forall m :: 0 <= m < n ==> oks[m] {
      assert k == n;
    }
  }

  lemma ConvertFieldsFirstFailure(args: QueryArgs, raw: RawFields)
    ensures ConvertFields(args, raw).Err? <==> FirstFailure(ConversionOks(args, raw)) < |ConversionFields|
    ensures ConvertFields(args, raw).Err? ==>
              ConvertFields(args, raw).error == ConversionError(FirstFailure(ConversionOks(args, raw)))
  {
    var oks := ConversionOks(args, raw);
    ConvertArgumentsFirstFailure(args);
    var a := FirstFailure(ArgumentOks(args));
    if a < 4 {
      assert ConversionInputs(args, raw)[..4] == ArgumentInputs(args);
      assert forall m :: 0 <= m < 4 ==> oks[m] == ArgumentOks(args)[m];
      assert FirstFailure(oks) == a;
    } else {
      assert ConversionInputs(args, raw)[..4] == ArgumentInputs(args);
      assert forall m :: 0 <= m < 4 ==> oks[m];
      assert oks[4] == ConvertDate("sdate1", raw.sdate1).Ok? && oks[5] == ConvertDate("sdate2", raw.sdate2).Ok?;
      assert oks[6] == IntOf(raw.roundTripTime).Some? && oks[7] == IntOf(raw.price).Some?;
      assert oks[8] == IntOf(raw.stops).Some?;
      if !oks[4] {
        assert FirstFailure(oks) == 4;
      } else if !oks[5] {
        assert FirstFailure(oks) == 5;
      } else if !oks[6] {
        assert FirstFailure(oks) == 6;
      } else if !oks[7] {
        assert FirstFailure(oks) == 7;
      } else if !oks[8] {
        assert FirstFailure(oks) == 8;
      } else {
        assert FirstFailure(oks) == 9;
      }
    }
  }

  /** The exception that escapes `Flight.__init__` is that of its first
      failing conversion: conversion `n` fails and every one before it in
      `ConversionFields` succeeds. */
  lemma ConvertFieldsFailsAt(args: QueryArgs, raw: RawFields, n: nat)
    requires n < |ConversionFields|
    ensures ConvertFields(args, raw) == Err(ConversionError(n)) <==>
              !Converts(n, ConversionInputs(args, raw)[n]) &&
              forall m :: 0 <= m < n ==> Converts(m, ConversionInputs(args, raw)[m])
  {
    var oks := ConversionOks(args, raw);
    ConvertFieldsFirstFailure(args, raw);
    var k := FirstFailure(oks);
    if ConvertFields(args, raw) == Err(ConversionError(n)) {
      ConversionErrorsDistinct(k, n);
    }
    if !oks[n] && forall m :: 0 <= m < n ==> oks[m] {
      assert k == n;
    }
  }

  /** The command line that would produce the numbers of `info`. */
  function ArgsOf(info: FlightInfo): QueryArgs {
    QueryArgs(info.scity, info.ecity, IntToString(info.fare), IntToString(info.duration),
              IntToString(info.day), IntToString(info.vacationLimit))
  }

  /** The record the search response would carry for `info`: dates as
      `YYYYMMDD` strings, numbers as JSON integers. */
  function RecordOf(info: FlightInfo): RawRecord {
    map["sdate1" := StrValue(FormatYmd(info.sdate1)), "sdate2" := StrValue(FormatYmd(info.sdate2)),
        "roundTripTime" := IntValue(info.roundTripTime), "price" := IntValue(info.price),
        "airline" := info.airline, "stops" := IntValue(info.stops)]
  }

  lemma ConvertArgumentsOfPrinted(info: FlightInfo)
    ensures ConvertArguments(ArgsOf(info)) == Ok(Limits(info.fare, info.duration, info.day, info.vacationLimit))
  {
    ParseIntOfIntToString(info.fare);
    ParseIntOfIntToString(info.duration);
    ParseIntOfIntToString(info.day);
    ParseIntOfIntToString(info.vacationLimit);
  }

  /** `int()` of a record value: a string converts exactly when `int()`
      accepts its text, an integer is itself, and a printed integer reads
      back as that integer. */
  lemma ConvertIntOfValue(field: string, s: string, n: int)
    ensures ConvertInt(field, StrValue(s)).Ok? <==> IsDigitGroup(Unsigned(Strip(s)))
    ensures ConvertInt(field, StrValue(s)).Err? ==> ConvertInt(field, StrValue(s)).error == NotAnInteger(field)
    ensures ConvertInt(field, IntValue(n)) == Ok(n)
    ensures ConvertInt(field, StrValue(IntToString(n))) == Ok(n)
  {
    ParseIntMeaning(s);
    ParseIntOfIntToString(n);
  }

  /** A date written with `%Y%m%d` converts back to that date. */
  lemma ConvertDateOfFormatted(field: string, d: ValidDate)
    ensures ConvertDate(field, StrValue(FormatYmd(d))) == Ok(d)
  {
    ParseOfFormatYmd(d);
  }

  /** An eight-digit date that converts is the `%Y%m%d` rendering of its
      date; a JSON integer is never a date, whatever its digits. */
  lemma ConvertDateOfDigits(field: string, s: string, n: int)
    requires |s| == 8 && AllDigits(s)
    ensures ConvertDate(field, StrValue(s)).Ok? ==> FormatYmd(ConvertDate(field, StrValue(s)).value) == s
    ensures ConvertDate(field, IntValue(n)) == Err(NotADate(field))
  {
    if ParseYmd(s).Some? {
      FormatOfParseYmd(s);
    }
  }

  lemma ConvertFieldsOfEncoded(info: FlightInfo)
    ensures ConvertFields(ArgsOf(info), RawFields(StrValue(FormatYmd(info.sdate1)), StrValue(FormatYmd(info.sdate2)),
                                                  IntValue(info.roundTripTime), IntValue(info.price),
                                                  info.airline, IntValue(info.stops))) == Ok(info)
  {
    ConvertArgumentsOfPrinted(info);
    ConvertDateOfFormatted("sdate1", info.sdate1);
    ConvertDateOfFormatted("sdate2", info.sdate2);
    ConvertFieldsSucceeds(ArgsOf(info), RawFields(StrValue(FormatYmd(info.sdate1)), StrValue(FormatYmd(info.sdate2)),
                                                  IntValue(info.roundTripTime), IntValue(info.price),
                                                  info.airline, IntValue(info.stops)));
  }

  /** Converting the record and command line of a flight gives that flight
      back. */
  lemma DecodeOfEncode(info: FlightInfo)
    ensures DecodeRecord(ArgsOf(info), RecordOf(info)) == Ok(info)
  {
    var data := RecordOf(info);
    var raw := RawFields(StrValue(FormatYmd(info.sdate1)), StrValue(FormatYmd(info.sdate2)),
                         IntValue(info.roundTripTime), IntValue(info.price), info.airline, IntValue(info.stops));
    assert LookupFields(data) == Ok(raw);
    ConvertFieldsOfEncoded(info);
  }
}
