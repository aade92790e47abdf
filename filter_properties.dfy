/** What `query_flights` promises about the list it returns: the first
    record that cannot be converted ends the query; otherwise the result
    holds, in arrival order, exactly the flights the vacation check passes;
    and a vacation limit that covers the whole trip keeps every flight. */
module FilterProperties {
  import opened Wrappers
  import opened PyBuiltins
  import opened PyDate
  import opened Vacation
  import opened QueryFlights
  import opened RecordProperties

  type Outcome = Result<Option<FlightValue>, Error>

  /** The loop over `first` followed by the loop over the remaining records. */
  function Then(first: Result<seq<FlightValue>, Error>, rest: Result<seq<FlightValue>, Error>): Result<seq<FlightValue>, Error> {
    match first
    case Err(e) => Err(e)
    case Ok(xs) => Prepend(xs, rest)
  }

  // ------------------------------------------------ the collecting loop

  lemma {:induction false} CollectFailsIff(outcomes: seq<Outcome>, i: nat)
    ensures Collect(outcomes, i).Err? <==> exists k :: i <= k < |outcomes| && outcomes[k].Err?
    decreases |outcomes| - i
  {
    if i < |outcomes| {
      CollectFailsIff(outcomes, i + 1);
      if outcomes[i].Ok? && Collect(outcomes, i).Err? {
        assert Collect(outcomes, i + 1).Err?;
      }
    }
  }

  lemma {:induction false} CollectFirstError(outcomes: seq<Outcome>, i: nat, k: nat)
    requires i <= k < |outcomes| && outcomes[k].Err?
    requires forall j :: i <= j < k ==> outcomes[j].Ok?
    ensures Collect(outcomes, i) == Err(outcomes[k].error)
    decreases k - i
  {
    if i < k {
      CollectFirstError(outcomes, i + 1, k);
    }
  }

  lemma {:induction false} CollectSound(outcomes: seq<Outcome>, i: nat, m: nat)
    requires Collect(outcomes, i).Ok? && m < |Collect(outcomes, i).value|
    ensures exists k :: i <= k < |outcomes| && outcomes[k] == Ok(Some(Collect(outcomes, i).value[m]))
    decreases |outcomes| - i
  {
    var kept := outcomes[i].value;
    var rest := Collect(outcomes, i + 1);
    var here := KeptOf(kept);
    assert Collect(outcomes, i).value == here + rest.value;
    if m < |here| {
      assert outcomes[i] == Ok(Some(Collect(outcomes, i).value[m]));
    } else {
      CollectSound(outcomes, i + 1, m - |here|);
      var k :| i + 1 <= k < |outcomes| && outcomes[k] == Ok(Some(rest.value[m - |here|]));
      assert outcomes[k] == Ok(Some(Collect(outcomes, i).value[m]));
    }
  }

  lemma {:induction false} CollectComplete(outcomes: seq<Outcome>, i: nat, k: nat)
    requires Collect(outcomes, i).Ok? && i <= k < |outcomes|
    requires outcomes[k].Ok? && outcomes[k].value.Some?
    ensures outcomes[k].value.value in Collect(outcomes, i).value
    decreases k - i
  {
    var here := KeptOf(outcomes[i].value);
    var rest := Collect(outcomes, i + 1);
    assert Collect(outcomes, i).value == here + rest.value;
    if i < k {
      CollectComplete(outcomes, i + 1, k);
    } else {
      assert here == [outcomes[k].value.value];
    }
  }

  lemma {:induction false} CollectLength(outcomes: seq<Outcome>, i: nat)
    requires i <= |outcomes| && Collect(outcomes, i).Ok?
    ensures |Collect(outcomes, i).value| <= |outcomes| - i
    decreases |outcomes| - i
  {
    if i < |outcomes| {
      CollectLength(outcomes, i + 1);
    }
  }

  lemma {:induction false} CollectAllKept(outcomes: seq<Outcome>, i: nat)
    requires i <= |outcomes|
    requires forall j :: i <= j < |outcomes| ==> outcomes[j].Ok? && outcomes[j].value.Some?
    ensures Collect(outcomes, i).Ok? && |Collect(outcomes, i).value| == |outcomes| - i
    ensures forall m :: 0 <= m < |outcomes| - i ==> Collect(outcomes, i).value[m] == outcomes[i + m].value.value
    decreases |outcomes| - i
  {
    if i < |outcomes| {
      CollectAllKept(outcomes, i + 1);
      var rest := Collect(outcomes, i + 1).value;
      assert Collect(outcomes, i).value == [outcomes[i].value.value] + rest;
    }
  }

  lemma {:induction false} CollectConcat(a: seq<Outcome>, b: seq<Outcome>, i: nat)
    requires i <= |a|
    ensures Collect(a + b, i) == Then(Collect(a, i), Collect(b, 0))
    decreases |a| - i
  {
    if i == |a| {
      assert Collect(a + b, i) == Collect(b, 0) by {
        CollectShift(a, b, 0);
      }
      PrependNothing(Collect(b, 0));
    } else {
      CollectConcat(a, b, i + 1);
      assert (a + b)[i] == a[i];
      var first := Collect(a, i + 1);
      var rest := Collect(b, 0);
      if a[i].Ok? && first.Ok? && rest.Ok? {
        var here := KeptOf(a[i].value);
        assert here + (first.value + rest.value) == (here + first.value) + rest.value;
      }
    }
  }

  lemma {:induction false} CollectShift(a: seq<Outcome>, b: seq<Outcome>, j: nat)
    requires j <= |b|
    ensures Collect(a + b, |a| + j) == Collect(b, j)
    decreases |b| - j
  {
    if j < |b| {
      CollectShift(a, b, j + 1);
      assert (a + b)[|a| + j] == b[j];
    }
  }

  /** The positions, from `i` on, of the outcomes that keep a flight. */
  function KeptIndices(outcomes: seq<Outcome>, i: nat): (idx: seq<nat>)
    ensures forall m :: 0 <= m < |idx| ==> i <= idx[m] < |outcomes|
    decreases |outcomes| - i
  {
    if i >= |outcomes| then []
    else (if outcomes[i].Ok? && outcomes[i].value.Some? then [i] else []) + KeptIndices(outcomes, i + 1)
  }

  /** The collected flights are the kept outcomes, taken at strictly
      increasing positions, and every kept outcome is among them. */
  lemma {:induction false} CollectIsSubsequence(outcomes: seq<Outcome>, i: nat)
    requires Collect(outcomes, i).Ok?
    ensures var vs, idx := Collect(outcomes, i).value, KeptIndices(outcomes, i);
      |vs| == |idx| &&
      (forall m :: 0 <= m < |idx| ==> outcomes[idx[m]] == Ok(Some(vs[m]))) &&
      (forall m, n :: 0 <= m < n < |idx| ==> idx[m] < idx[n]) &&
      (forall k :: i <= k < |outcomes| ==> (k in idx <==> outcomes[k].Ok? && outcomes[k].value.Some?))
    decreases |outcomes| - i
  {
    if i < |outcomes| {
      CollectIsSubsequence(outcomes, i + 1);
      var here := KeptOf(outcomes[i].value);
      var rest := Collect(outcomes, i + 1).value;
      var restIdx := KeptIndices(outcomes, i + 1);
      var hereIdx := if outcomes[i].value.Some? then [i] else [];
      assert Collect(outcomes, i).value == here + rest;
      assert KeptIndices(outcomes, i) == hereIdx + restIdx;
      assert i !in restIdx;
    }
  }

  // ------------------------------------------------- one record, isolated

  lemma {:induction false} OutcomesConcat(args: QueryArgs, d1: seq<RawRecord>, d2: seq<RawRecord>, isHoliday: int -> bool)
    ensures Outcomes(args, d1 + d2, isHoliday) == Outcomes(args, d1, isHoliday) + Outcomes(args, d2, isHoliday)
    decreases |d1|
  {
    if d1 == [] {
      assert d1 + d2 == d2;
    } else {
      assert (d1 + d2)[1..] == d1[1..] + d2;
      OutcomesConcat(args, d1[1..], d2, isHoliday);
    }
  }

  // ------------------------------------------------- the vacation check

  /** A vacation limit of at least the trip length skips the calculation:
      the flight is kept with `vacation_req` still `None`. */
  lemma CheckShortCircuit(info: FlightInfo, isHoliday: int -> bool)
    requires info.vacationLimit >= info.day
    ensures Check(info, isHoliday) == Some(FlightValue(info, None))
  {
  }

  /** Below the trip length the flight is kept exactly when its vacation
      cost is within the limit, and it carries that cost. */
  lemma CheckVacation(info: FlightInfo, isHoliday: int -> bool)
    requires info.vacationLimit < info.day
    ensures Check(info, isHoliday).Some? <==> RequiredVacationDays(info.sdate1, info.sdate2, isHoliday) <= info.vacationLimit
    ensures Check(info, isHoliday).Some? ==>
              Check(info, isHoliday).value == FlightValue(info, Some(RequiredVacationDays(info.sdate1, info.sdate2, isHoliday)))
  {
  }

  /** Reversed dates never cost vacation: with a vacation limit of 0 or
      more the flight is kept, and a computed `vacation_req` is 0 or less. */
  lemma ReversedTripKept(info: FlightInfo, isHoliday: int -> bool)
    requires Ordinal(info.sdate2) < Ordinal(info.sdate1) && 0 <= info.vacationLimit
    ensures Check(info, isHoliday).Some?
    ensures Check(info, isHoliday).value.vacationReq.Some? ==> Check(info, isHoliday).value.vacationReq.value <= 0
  {
    ReversedTrip(info.sdate1, info.sdate2, isHoliday);
  }

  /** What any kept flight looks like: its fields unchanged, and either the
      limit covered the trip and no cost was computed, or the computed cost
      is within the limit. */
  lemma CheckKept(info: FlightInfo, isHoliday: int -> bool)
    requires Check(info, isHoliday).Some?
    ensures Check(info, isHoliday).value.info == info
    ensures Check(info, isHoliday).value.vacationReq.None? <==> info.vacationLimit >= info.day
    ensures Check(info, isHoliday).value.vacationReq.Some? ==>
              Check(info, isHoliday).value.vacationReq.value <= info.vacationLimit
  {
  }

  // --------------------------------------------------------- the filter

  /** No records, no flights, whatever the arguments. */
  lemma FilterEmpty(args: QueryArgs, isHoliday: int -> bool)
    ensures Filter(args, [], isHoliday) == Ok([])
  {
  }

  /** The query fails exactly when some record cannot be converted. */
  lemma FilterFailsIff(args: QueryArgs, datas: seq<RawRecord>, isHoliday: int -> bool)
    ensures Filter(args, datas, isHoliday).Err? <==> exists k :: 0 <= k < |datas| && DecodeRecord(args, datas[k]).Err?
  {
    var outcomes := Outcomes(args, datas, isHoliday);
    CollectFailsIff(outcomes, 0);
    forall k | 0 <= k < |datas|
      ensures outcomes[k].Err? <==> DecodeRecord(args, datas[k]).Err?
    {
      OutcomeAt(args, datas, isHoliday, k);
      AdmitDecodes(args, datas[k], isHoliday);
    }
  }

  /** A malformed record is not skipped: the error of the first one ends
      the whole query, whatever follows it. */
  lemma FilterStopsAtFirstBadRecord(args: QueryArgs, datas: seq<RawRecord>, isHoliday: int -> bool, k: nat)
    requires k < |datas| && DecodeRecord(args, datas[k]).Err?
    requires forall j :: 0 <= j < k ==> DecodeRecord(args, datas[j]).Ok?
    ensures Filter(args, datas, isHoliday) == Err(DecodeRecord(args, datas[k]).error)
  {
    var outcomes := Outcomes(args, datas, isHoliday);
    forall j | 0 <= j <= k
      ensures outcomes[j].Err? <==> DecodeRecord(args, datas[j]).Err?
      ensures outcomes[j].Err? ==> outcomes[j].error == DecodeRecord(args, datas[j]).error
    {
      OutcomeAt(args, datas, isHoliday, j);
      AdmitDecodes(args, datas[j], isHoliday);
    }
    CollectFirstError(outcomes, 0, k);
  }

  /** Every returned flight comes from some record: it is that record's
      flight, and it passed the vacation check. */
  lemma FilterSound(args: QueryArgs, datas: seq<RawRecord>, isHoliday: int -> bool, m: nat)
    requires Filter(args, datas, isHoliday).Ok? && m < |Filter(args, datas, isHoliday).value|
    ensures var v := Filter(args, datas, isHoliday).value[m];
      exists k :: 0 <= k < |datas| && DecodeRecord(args, datas[k]) == Ok(v.info) && Check(v.info, isHoliday) == Some(v)
  {
    var outcomes := Outcomes(args, datas, isHoliday);
    var v := Filter(args, datas, isHoliday).value[m];
    CollectSound(outcomes, 0, m);
    var k :| 0 <= k < |outcomes| && outcomes[k] == Ok(Some(v));
    OutcomeAt(args, datas, isHoliday, k);
    AdmitDecodes(args, datas[k], isHoliday);
    CheckKept(DecodeRecord(args, datas[k]).value, isHoliday);
  }

  /** Every record whose flight passes the vacation check is returned. */
  lemma FilterComplete(args: QueryArgs, datas: seq<RawRecord>, isHoliday: int -> bool, k: nat)
    requires Filter(args, datas, isHoliday).Ok? && k < |datas|
    requires DecodeRecord(args, datas[k]).Ok? && Check(DecodeRecord(args, datas[k]).value, isHoliday).Some?
    ensures Check(DecodeRecord(args, datas[k]).value, isHoliday).value in Filter(args, datas, isHoliday).value
  {
    var outcomes := Outcomes(args, datas, isHoliday);
    OutcomeAt(args, datas, isHoliday, k);
    AdmitDecodes(args, datas[k], isHoliday);
    CollectComplete(outcomes, 0, k);
  }

  /** A returned flight within the limit: either the limit covered the
      trip, or its computed vacation cost is at most the limit. */
  lemma FilterWithinLimit(args: QueryArgs, datas: seq<RawRecord>, isHoliday: int -> bool, m: nat)
    requires Filter(args, datas, isHoliday).Ok? && m < |Filter(args, datas, isHoliday).value|
    ensures var v := Filter(args, datas, isHoliday).value[m];
      (v.vacationReq.None? && v.info.vacationLimit >= v.info.day) ||
      (v.vacationReq == Some(RequiredVacationDays(v.info.sdate1, v.info.sdate2, isHoliday)) &&
       v.vacationReq.value <= v.info.vacationLimit < v.info.day)
  {
    FilterSound(args, datas, isHoliday, m);
    var v := Filter(args, datas, isHoliday).value[m];
    if v.info.vacationLimit < v.info.day {
      CheckVacation(v.info, isHoliday);
    }
  }

  /** The result is a subsequence of the records in arrival order: the
      flights of the records the vacation check passes, at strictly
      increasing positions, each once. */
  lemma FilterIsSubsequence(args: QueryArgs, datas: seq<RawRecord>, isHoliday: int -> bool)
    requires Filter(args, datas, isHoliday).Ok?
    ensures forall k :: 0 <= k < |datas| ==> DecodeRecord(args, datas[k]).Ok?
    ensures var vs, idx := Filter(args, datas, isHoliday).value, KeptIndices(Outcomes(args, datas, isHoliday), 0);
      |vs| == |idx| &&
      (forall m :: 0 <= m < |idx| ==> Check(DecodeRecord(args, datas[idx[m]]).value, isHoliday) == Some(vs[m])) &&
      (forall m, n :: 0 <= m < n < |idx| ==> idx[m] < idx[n]) &&
      (forall k :: 0 <= k < |datas| ==> (k in idx <==> Check(DecodeRecord(args, datas[k]).value, isHoliday).Some?))
  {
    var outcomes := Outcomes(args, datas, isHoliday);
    FilterFailsIff(args, datas, isHoliday);
    CollectIsSubsequence(outcomes, 0);
    forall k | 0 <= k < |datas|
      ensures outcomes[k] == Ok(Check(DecodeRecord(args, datas[k]).value, isHoliday))
    {
      OutcomeAt(args, datas, isHoliday, k);
      AdmitDecodes(args, datas[k], isHoliday);
    }
  }

  /** The loop never adds flights: at most one per record. */
  lemma FilterLength(args: QueryArgs, datas: seq<RawRecord>, isHoliday: int -> bool)
    requires Filter(args, datas, isHoliday).Ok?
    ensures |Filter(args, datas, isHoliday).value| <= |datas|
  {
    CollectLength(Outcomes(args, datas, isHoliday), 0);
  }

  /** Order is arrival order: the records of a longer response are processed
      as the first part followed by the rest. */
  lemma FilterConcat(args: QueryArgs, d1: seq<RawRecord>, d2: seq<RawRecord>, isHoliday: int -> bool)
    ensures Filter(args, d1 + d2, isHoliday) == Then(Filter(args, d1, isHoliday), Filter(args, d2, isHoliday))
  {
    OutcomesConcat(args, d1, d2, isHoliday);
    CollectConcat(Outcomes(args, d1, isHoliday), Outcomes(args, d2, isHoliday), 0);
  }

  /** A single record yields its kept flight, nothing, or its error. */
  lemma FilterSingle(args: QueryArgs, data: RawRecord, isHoliday: int -> bool)
    ensures DecodeRecord(args, data).Err? ==> Filter(args, [data], isHoliday) == Err(DecodeRecord(args, data).error)
    ensures DecodeRecord(args, data).Ok? ==>
              Filter(args, [data], isHoliday) == Ok(KeptOf(Check(DecodeRecord(args, data).value, isHoliday)))
  {
    OutcomeAt(args, [data], isHoliday, 0);
    AdmitDecodes(args, data, isHoliday);
    var outcomes := Outcomes(args, [data], isHoliday);
    assert Collect(outcomes, 1) == Ok([]);
    if outcomes[0].Ok? {
      assert KeptOf(outcomes[0].value) + [] == KeptOf(outcomes[0].value);
    }
  }

  /** When the vacation limit is at least the trip length, every record is
      kept, in order, with no vacation cost computed. */
  lemma FilterKeepsAll(args: QueryArgs, datas: seq<RawRecord>, isHoliday: int -> bool)
    requires ParseInt(args.vacation).Some? && ParseInt(args.day).Some?
    requires ParseInt(args.vacation).value >= ParseInt(args.day).value
    requires forall k :: 0 <= k < |datas| ==> DecodeRecord(args, datas[k]).Ok?
    ensures Filter(args, datas, isHoliday).Ok? && |Filter(args, datas, isHoliday).value| == |datas|
    ensures forall k :: 0 <= k < |datas| ==>
              Filter(args, datas, isHoliday).value[k] == FlightValue(DecodeRecord(args, datas[k]).value, None)
  {
    var outcomes := Outcomes(args, datas, isHoliday);
    forall k | 0 <= k < |datas|
      ensures outcomes[k] == Ok(Some(FlightValue(DecodeRecord(args, datas[k]).value, None)))
    {
      OutcomeAt(args, datas, isHoliday, k);
      AdmitDecodes(args, datas[k], isHoliday);
      DecodedArguments(args, datas[k]);
      CheckShortCircuit(DecodeRecord(args, datas[k]).value, isHoliday);
    }
    CollectAllKept(outcomes, 0);
  }

  /** Without `--vacation` the limit is the trip length itself, so nothing is
      ever dropped: a query that succeeds returns one flight per record. */
  lemma DefaultVacationKeepsAll(cli: CliArgs, datas: seq<RawRecord>, isHoliday: int -> bool)
    requires cli.vacation.None?
    ensures var args := ApplyVacationDefault(cli);
      Filter(args, datas, isHoliday).Ok? ==> |Filter(args, datas, isHoliday).value| == |datas|
  {
    var args := ApplyVacationDefault(cli);
    if Filter(args, datas, isHoliday).Ok? {
      FilterFailsIff(args, datas, isHoliday);
      if |datas| > 0 {
        DecodedArguments(args, datas[0]);
        FilterKeepsAll(args, datas, isHoliday);
      }
    }
  }

  /** Unparsable arguments are converted per record: they go unnoticed
      while the response is empty and fail the query on its first record. */
  lemma BadArgumentFailsOnFirstRecord(args: QueryArgs, datas: seq<RawRecord>, isHoliday: int -> bool)
    requires ParseInt(args.fare).None?
    ensures Filter(args, datas, isHoliday).Err? <==> |datas| > 0
  {
    FilterFailsIff(args, datas, isHoliday);
    if |datas| > 0 {
      DecodedArguments(args, datas[0]);
    }
  }
}
