/** What the two renderings of a `Flight` show: the airline table's names,
    the weekday labels, and a booking link from which the two legs, in
    order, and the trip dates can be read back. */
module FlightPresentation {
  import opened Wrappers
  import opened PyBuiltins
  import opened PyDate
  import opened Vacation
  import opened QueryFlights

  /** `name` ends with the two-character `code` in parentheses. */
  predicate EndsWithCode(name: string, code: string) {
    |code| == 2 && |name| > 4 && name[|name| - 4] == '(' && name[|name| - 3] == code[0] &&
    name[|name| - 2] == code[1] && name[|name| - 1] == ')'
  }

  /** Every display name in the airline table ends with its own code in
      parentheses. */
  lemma AirlineCodesShowCode(code: string)
    requires code in AirlineCodes
    ensures EndsWithCode(AirlineCodes[code], code)
  {
  }

  lemma EndsWithCodeSuffix(name: string, code: string)
    requires EndsWithCode(name, code)
    ensures name != code && name[|name| - 4..] == "(" + code + ")"
  {
  }

  /** A known string code shows as a display name that ends with the code in
      parentheses, so never as the bare code; any other string shows as
      itself. */
  lemma AirlineNameShowsCode(code: string)
    ensures code in AirlineCodes ==>
              var name := AirlineName(StrValue(code));
              name != code && |name| > |code| + 2 && name[|name| - |code| - 2..] == "(" + code + ")"
    ensures code !in AirlineCodes ==> AirlineName(StrValue(code)) == code
  {
    if code in AirlineCodes {
      AirlineCodesShowCode(code);
      EndsWithCodeSuffix(AirlineCodes[code], code);
    }
  }

  /** Distinct known codes show distinct names: the summary line identifies
      the airline. */
  lemma KnownAirlineNamesDistinct(a: string, b: string)
    requires a in AirlineCodes && b in AirlineCodes
    requires AirlineName(StrValue(a)) == AirlineName(StrValue(b))
    ensures a == b
  {
    var name := AirlineCodes[a];
    assert name == AirlineCodes[b];
    AirlineCodesShowCode(a);
    AirlineCodesShowCode(b);
    assert a[0] == name[|name| - 3] == b[0] && a[1] == name[|name| - 2] == b[1];
  }

  /** Two days get the same label exactly when they fall on the same weekday. */
  lemma WeekdayKrIdentifiesWeekday(d1: ValidDate, d2: ValidDate)
    ensures Flight.GetWeekdayKr(d1) == Flight.GetWeekdayKr(d2) <==> Weekday(Ordinal(d1)) == Weekday(Ordinal(d2))
  {
  }

  /** The label of the next day is the next one in 월화수목금토일, 일 wrapping
      around to 월. */
  lemma WeekdayKrOfNextDate(d: ValidDate)
    requires d != Date(MaxYear, 12, 31)
    ensures Valid(NextDate(d))
    ensures Flight.GetWeekdayKr(NextDate(d)) == [WeekdayNames[(Weekday(Ordinal(d)) + 1) % 7]]
  {
    OrdinalOfNextDate(d);
    WeekdayShift(Ordinal(d), 1);
  }

  /** Equal concatenations with equally long left parts have equal parts. */
  lemma AppendCancel(a1: string, b1: string, a2: string, b2: string)
    requires |a1| == |a2| && a1 + b1 == a2 + b2
    ensures a1 == a2 && b1 == b2
  {
    assert a1 == (a1 + b1)[..|a1|];
    assert a2 == (a2 + b2)[..|a2|];
    assert b1 == (a1 + b1)[|a1|..];
    assert b2 == (a2 + b2)[|a2|..];
  }

  /** For given cities, a leg of the link determines its date. */
  lemma LegDeterminesDate(from: string, to: string, d1: ValidDate, d2: ValidDate)
    requires Leg(from, to, d1) == Leg(from, to, d2)
    ensures d1 == d2
  {
    AppendCancel(from + "-" + to + "-", FormatYmd(d1), from + "-" + to + "-", FormatYmd(d2));
    FormatYmdInjective(d1, d2);
  }

  /** The position of the first `c` in `s`, or `|s|` when there is none. */
  function IndexOf(s: string, c: char): (k: nat)
    ensures k <= |s| && c !in s[..k] && (k < |s| ==> s[k] == c)
  {
    if s == [] || s[0] == c then 0
    else
      var k := 1 + IndexOf(s[1..], c);
      assert s[..k] == [s[0]] + s[1..][..k - 1];
      k
  }

  lemma {:induction false} IndexOfFirst(a: string, b: string, c: char)
    requires c !in a
    ensures IndexOf(a + [c] + b, c) == |a|
  {
    if a != [] {
      assert (a + [c] + b)[1..] == a[1..] + [c] + b;
      IndexOfFirst(a[1..], b, c);
    }
  }

  /** The two legs written in a booking link, read back: the text between
      the site path and the query string, split at its first `/`. */
  function LinkLegs(link: string): Option<(string, string)> {
    if |link| >= |LinkPrefix| + |LinkSuffix| && link[..|LinkPrefix|] == LinkPrefix &&
       link[|link| - |LinkSuffix|..] == LinkSuffix
    then
      var middle := link[|LinkPrefix|..|link| - |LinkSuffix|];
      var k := IndexOf(middle, '/');
      if k < |middle| then Some((middle[..k], middle[k + 1..])) else None
    else None
  }

  /** The parts of `p + m + q`, cut at the lengths of `p` and `q`. */
  lemma Framed(p: string, m: string, q: string)
    ensures var s := p + m + q;
      s[..|p|] == p && s[|s| - |q|..] == q && s[|p|..|s| - |q|] == m
  {
  }

  lemma NoSlashInLeg(from: string, to: string, date: ValidDate)
    requires '/' !in from && '/' !in to
    ensures '/' !in Leg(from, to, date)
  {
    var digits := FormatYmd(date);
    assert forall i :: 0 <= i < |digits| ==> digits[i] != '/';
  }

  /** For city codes without `/`, the link holds the outbound leg
      `scity-ecity-sdate1` first and the return leg `ecity-scity-sdate2`
      after it. */
  lemma FlightLinkLegs(f: Flight)
    requires '/' !in f.info.scity && '/' !in f.info.ecity
    ensures LinkLegs(f.GetFlightLink()) ==
            Some((Leg(f.info.scity, f.info.ecity, f.info.sdate1), Leg(f.info.ecity, f.info.scity, f.info.sdate2)))
  {
    var out := Leg(f.info.scity, f.info.ecity, f.info.sdate1);
    var back := Leg(f.info.ecity, f.info.scity, f.info.sdate2);
    var middle := out + "/" + back;
    assert f.GetFlightLink() == LinkPrefix + middle + LinkSuffix;
    Framed(LinkPrefix, middle, LinkSuffix);
    NoSlashInLeg(f.info.scity, f.info.ecity, f.info.sdate1);
    IndexOfFirst(out, back, '/');
    assert middle[..|out|] == out && middle[|out| + 1..] == back;
  }

  /** For a given route, the booking link determines both trip dates. */
  lemma FlightLinkDeterminesDates(f: Flight, g: Flight)
    requires f.info.scity == g.info.scity && f.info.ecity == g.info.ecity
    requires f.GetFlightLink() == g.GetFlightLink()
    ensures f.info.sdate1 == g.info.sdate1 && f.info.sdate2 == g.info.sdate2
  {
    var sc, ec := f.info.scity, f.info.ecity;
    var out1, out2 := Leg(sc, ec, f.info.sdate1), Leg(sc, ec, g.info.sdate1);
    var back1, back2 := Leg(ec, sc, f.info.sdate2), Leg(ec, sc, g.info.sdate2);
    var head1, head2 := LinkPrefix + out1 + "/", LinkPrefix + out2 + "/";
    AppendCancel(head1 + back1, LinkSuffix, head2 + back2, LinkSuffix);
    AppendCancel(head1, back1, head2, back2);
    AppendCancel(LinkPrefix + out1, "/", LinkPrefix + out2, "/");
    AppendCancel(LinkPrefix, out1, LinkPrefix, out2);
    LegDeterminesDate(sc, ec, f.info.sdate1, g.info.sdate1);
    LegDeterminesDate(ec, sc, f.info.sdate2, g.info.sdate2);
  }
}
