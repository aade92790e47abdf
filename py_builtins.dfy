/** The Python built-ins the flight core relies on, over ASCII text:
    the values a JSON decoder hands back, `int(x)` on them, `str(n)` and the
    `{:,}` thousands-separator format of an integer. */
module PyBuiltins {
  import opened Wrappers

  /** A scalar as `response.json()` produces it: null, true/false, an
      integer or a string. */
  datatype Value = NoneValue | BoolValue(b: bool) | IntValue(i: int) | StrValue(s: string)

  predicate IsDigit(c: char) {
    '0' <= c <= '9'
  }

  predicate AllDigits(s: string) {
    forall i :: 0 <= i < |s| ==> IsDigit(s[i])
  }

  function DigitValue(c: char): nat
    requires IsDigit(c)
  {
    c as int - '0' as int
  }

  function DigitChar(d: nat): (c: char)
    requires d < 10
    ensures IsDigit(c) && DigitValue(c) == d
  {
    ('0' as int + d) as char
  }

  /** The number a run of decimal digits denotes. */
  function DigitsValue(s: string): nat
    requires AllDigits(s)
  {
    if s == [] then 0 else DigitsValue(s[..|s| - 1]) * 10 + DigitValue(s[|s| - 1])
  }

  // ---------------------------------------------------------------- str(n)

  /** Decimal digits of `n`, without leading zeros. */
  function NatToString(n: nat): (s: string)
    ensures |s| >= 1 && AllDigits(s)
    ensures |s| > 1 ==> s[0] != '0'
  {
    if n < 10 then [DigitChar(n)] else NatToString(n / 10) + [DigitChar(n % 10)]
  }

  /** `str(n)` for a Python `int`. */
  function IntToString(n: int): (s: string)
    ensures |s| >= 1
    ensures n < 0 <==> s[0] == '-'
  {
    if n < 0 then "-" + NatToString(-n) else NatToString(n)
  }

  lemma {:induction false} NatToStringValue(n: nat)
    ensures DigitsValue(NatToString(n)) == n
  {
    if n >= 10 {
      var s := NatToString(n);
      assert s[..|s| - 1] == NatToString(n / 10);
      NatToStringValue(n / 10);
    }
  }

  // ---------------------------------------------------------------- int(s)

  /** The characters `int()` skips around its argument. */
  predicate IsSpace(c: char) {
    c == ' ' || c == '\t' || c == '\n' || c == '\r' || c == '\U{000B}' || c == '\U{000C}'
  }

  function StripLeft(s: string): (t: string)
    ensures |t| <= |s| && (t != [] ==> !IsSpace(t[0]))
  {
    if s != [] && IsSpace(s[0]) then StripLeft(s[1..]) else s
  }

  function StripRight(s: string): (t: string)
    ensures |t| <= |s| && (t != [] ==> !IsSpace(t[|t| - 1]))
  {
    if s != [] && IsSpace(s[|s| - 1]) then StripRight(s[..|s| - 1]) else s
  }

  /** `s` with the white space at both ends removed, as `str.strip()`. */
  function Strip(s: string): string {
    StripRight(StripLeft(s))
  }

  /** Digits, where a single `_` may stand between two digits (PEP 515). */
  predicate IsDigitGroup(s: string) {
    |s| >= 1 && IsDigit(s[0]) && IsDigit(s[|s| - 1]) &&
    (forall i :: 0 <= i < |s| ==> IsDigit(s[i]) || s[i] == '_') &&
    (forall i :: 0 <= i < |s| - 1 ==> s[i] == '_' ==> s[i + 1] != '_')
  }

  function RemoveUnderscores(s: string): (t: string)
    ensures (forall i :: 0 <= i < |s| ==> IsDigit(s[i]) || s[i] == '_') ==> AllDigits(t)
  {
    if s == [] then []
    else RemoveUnderscores(s[..|s| - 1]) + (if s[|s| - 1] == '_' then [] else [s[|s| - 1]])
  }

  /** The number a run of digits with single underscores between them
      denotes, scanned from the right; `None` for anything else. */
  function DigitGroupValue(s: string): (r: Option<nat>)
    ensures r.Some? ==> s != []
  {
    if s == [] || !IsDigit(s[|s| - 1]) then None
    else if |s| == 1 then Some(DigitValue(s[0]))
    else
      var init := s[..|s| - 1];
      var prefix := if init[|init| - 1] == '_' then init[..|init| - 1] else init;
      match DigitGroupValue(prefix)
      case None => None
      case Some(v) => Some(v * 10 + DigitValue(s[|s| - 1]))
  }

  /** `t` without one leading sign. */
  function Unsigned(t: string): string {
    if t != [] && (t[0] == '-' || t[0] == '+') then t[1..] else t
  }

  /** `int(s)` for a string `s` in base 10: surrounding white space, an
      optional sign, then digits with single underscores between them;
      `None` where Python raises `ValueError`. The sign-free `body` is
      `Unsigned(t)`, written out here rather than called, which keeps the
      record-decoding proofs that unfold `ParseInt` small; `ParseIntMeaning`
      relies on the two being the same. */
  function ParseInt(s: string): (r: Option<int>)
    ensures r.Some? ==> Strip(s) != []
  {
    var t := Strip(s);
    var negative := t != [] && t[0] == '-';
    var body := if t != [] && (t[0] == '-' || t[0] == '+') then t[1..] else t;
    match DigitGroupValue(body)
    case None => None
    case Some(magnitude) =>
      var m: int := magnitude;
      Some(if negative then -m else m)
  }

  /** `int(v)` for a JSON scalar: an `int` is itself, a `bool` is 0 or 1, a
      string is parsed, and `None` raises `TypeError` (here: `None`). */
  function IntOf(v: Value): (r: Option<int>)
    ensures v.IntValue? ==> r == Some(v.i)
    ensures v.NoneValue? ==> r.None?
  {
    match v
    case NoneValue => None
    case BoolValue(b) => Some(if b then 1 else 0)
    case IntValue(i) => Some(i)
    case StrValue(s) => ParseInt(s)
  }

  /** `str(v)`, as an f-string shows a JSON scalar. */
  function StrOf(v: Value): string {
    match v
    case NoneValue => "None"
    case BoolValue(b) => if b then "True" else "False"
    case IntValue(i) => IntToString(i)
    case StrValue(s) => s
  }

  lemma NoSpaceInDigits(s: string)
    requires AllDigits(s)
    ensures forall i :: 0 <= i < |s| ==> !IsSpace(s[i])
  {
  }

  lemma {:induction false} DigitGroupValueOfDigits(s: string)
    requires s != [] && AllDigits(s)
    ensures DigitGroupValue(s) == Some(DigitsValue(s))
    decreases |s|
  {
    if |s| > 1 {
      DigitGroupValueOfDigits(s[..|s| - 1]);
    } else {
      assert s[..0] == [];
    }
  }

  lemma AppendDigit(x: string, c: char)
    requires AllDigits(x) && IsDigit(c)
    ensures AllDigits(x + [c]) && DigitsValue(x + [c]) == DigitsValue(x) * 10 + DigitValue(c)
  {
    assert (x + [c])[..|x|] == x;
  }

  /** A digit appended after a character that is not `_`. */
  lemma GroupAppendDigit(init: string, c: char)
    requires init != [] && init[|init| - 1] != '_' && IsDigit(c)
    ensures IsDigitGroup(init + [c]) <==> IsDigitGroup(init)
  {
    var s := init + [c];
    if IsDigitGroup(init) {
      assert forall i :: 0 <= i < |s| ==> s[i] == (if i < |init| then init[i] else c);
    }
    if IsDigitGroup(s) {
      assert forall i :: 0 <= i < |init| ==> init[i] == s[i];
    }
  }

  /** An underscore and a digit appended. */
  lemma GroupAppendUnderscoreDigit(prefix: string, c: char)
    requires IsDigit(c)
    ensures IsDigitGroup(prefix + ['_', c]) <==> IsDigitGroup(prefix)
  {
    var s := prefix + ['_', c];
    if prefix == [] {
      assert s[0] == '_';
    } else {
      if IsDigitGroup(prefix) {
        assert forall i :: 0 <= i < |s| ==> s[i] == (if i < |prefix| then prefix[i] else if i == |prefix| then '_' else c);
      }
      if IsDigitGroup(s) {
        assert s[|prefix|] == '_';
        assert s[|prefix| - 1] != '_';
        assert forall i :: 0 <= i < |prefix| ==> prefix[i] == s[i];
      }
    }
  }

  /** The scanner accepts exactly the digit groups of PEP 515, and its value
      is that of the digits left once the underscores are removed. */
  lemma {:induction false} DigitGroupValueIsGroup(s: string)
    ensures DigitGroupValue(s).Some? <==> IsDigitGroup(s)
    ensures DigitGroupValue(s).Some? ==> DigitGroupValue(s).value == DigitsValue(RemoveUnderscores(s))
    decreases |s|
  {
    if s == [] || !IsDigit(s[|s| - 1]) {
    } else if |s| == 1 {
      assert RemoveUnderscores(s) == RemoveUnderscores([]) + [s[0]];
      assert DigitsValue(RemoveUnderscores(s)) == DigitsValue([]) * 10 + DigitValue(s[0]);
    } else {
      var c := s[|s| - 1];
      var init := s[..|s| - 1];
      var prefix := if init[|init| - 1] == '_' then init[..|init| - 1] else init;
      DigitGroupValueIsGroup(prefix);
      assert s == init + [c];
      assert RemoveUnderscores(s) == RemoveUnderscores(init) + [c];
      if init[|init| - 1] == '_' {
        assert init == prefix + ['_'];
        assert s == prefix + ['_', c];
        GroupAppendUnderscoreDigit(prefix, c);
        assert RemoveUnderscores(init) == RemoveUnderscores(prefix);
      } else {
        GroupAppendDigit(init, c);
      }
      if IsDigitGroup(prefix) {
        AppendDigit(RemoveUnderscores(prefix), c);
      }
    }
  }

  lemma StripOfUnspaced(s: string)
    requires s != [] && !IsSpace(s[0]) && !IsSpace(s[|s| - 1])
    ensures Strip(s) == s
  {
  }

  /** `int()` of a plain string of ASCII digits is its decimal value. */
  lemma ParseIntOfDigits(s: string)
    requires s != [] && AllDigits(s)
    ensures ParseInt(s) == Some(DigitsValue(s))
  {
    assert IsDigit(s[0]) && IsDigit(s[|s| - 1]);
    StripOfUnspaced(s);
    DigitGroupValueOfDigits(s);
  }

  /** `int(str(n)) == n`: every integer survives printing and reading back. */
  lemma ParseIntOfIntToString(n: int)
    ensures ParseInt(IntToString(n)) == Some(n)
  {
    var m := if n < 0 then -n else n;
    var digits := NatToString(m);
    var s := IntToString(n);
    NoSpaceInDigits(digits);
    assert s[|s| - 1] == digits[|digits| - 1];
    StripOfUnspaced(s);
    var body := if n < 0 then s[1..] else s;
    assert body == digits;
    DigitGroupValueOfDigits(digits);
    NatToStringValue(m);
    assert Strip(s) == s;
  }

  /** What `int()` accepts: once the white space around it and one sign are
      removed, a PEP 515 digit group; its value is that of the digits,
      negated after a `-`. */
  lemma ParseIntMeaning(s: string)
    ensures ParseInt(s).Some? <==> IsDigitGroup(Unsigned(Strip(s)))
    ensures ParseInt(s).Some? ==>
              var magnitude: int := DigitsValue(RemoveUnderscores(Unsigned(Strip(s))));
              ParseInt(s).value == if Strip(s)[0] == '-' then -magnitude else magnitude
  {
    DigitGroupValueIsGroup(Unsigned(Strip(s)));
  }

  // ------------------------------------------------------------ {:,} format

  /** Exactly three digits, zero-padded: one group after a separator. */
  function Pad3(n: nat): (s: string)
    requires n < 1000
    ensures |s| == 3 && AllDigits(s)
  {
    [DigitChar(n / 100), DigitChar(n / 10 % 10), DigitChar(n % 10)]
  }

  function GroupThousands(n: nat): string {
    if n < 1000 then NatToString(n) else GroupThousands(n / 1000) + "," + Pad3(n % 1000)
  }

  /** `f"{n:,}"`: the decimal digits of `n` with a comma between each group
      of three, counted from the right. */
  function FormatThousands(n: int): string {
    if n < 0 then "-" + GroupThousands(-n) else GroupThousands(n)
  }

  function RemoveCommas(s: string): string {
    if s == [] then [] else (if s[0] == ',' then [] else [s[0]]) + RemoveCommas(s[1..])
  }

  lemma {:induction false} RemoveCommasAppend(a: string, b: string)
    ensures RemoveCommas(a + b) == RemoveCommas(a) + RemoveCommas(b)
  {
    if a != [] {
      assert (a + b)[0] == a[0];
      assert (a + b)[1..] == a[1..] + b;
      RemoveCommasAppend(a[1..], b);
    } else {
      assert a + b == b;
    }
  }

  lemma {:induction false} RemoveCommasOfDigits(s: string)
    requires AllDigits(s)
    ensures RemoveCommas(s) == s
  {
    if s != [] {
      RemoveCommasOfDigits(s[1..]);
    }
  }

  lemma DivMod10(x: nat, high: nat, low: nat)
    requires low < 10 && x == 10 * high + low
    ensures x / 10 == high && x % 10 == low
  {
  }

  /** Appending a digit to a positive number's decimal form. */
  lemma NatToStringStep(high: nat, low: nat)
    requires high >= 1 && low < 10
    ensures NatToString(10 * high + low) == NatToString(high) + [DigitChar(low)]
  {
    DivMod10(10 * high + low, high, low);
  }

  /** The digits of `n % 1000`, and `n` rebuilt from them. */
  lemma ThousandsDigits(n: nat)
    requires n >= 1000
    ensures var q, r := n / 1000, n % 1000;
      q >= 1 && r / 100 < 10 && r / 10 % 10 < 10 &&
      n == 10 * (10 * (10 * q + r / 100) + r / 10 % 10) + r % 10
  {
    var q, r := n / 1000, n % 1000;
    assert r == 100 * (r / 100) + 10 * (r / 10 % 10) + r % 10;
  }

  /** Appending three digits to a positive number's decimal form. */
  lemma NatToStringThreeSteps(q: nat, a: nat, b: nat, c: nat)
    requires q >= 1 && a < 10 && b < 10 && c < 10
    ensures NatToString(10 * (10 * (10 * q + a) + b) + c) == NatToString(q) + [DigitChar(a), DigitChar(b), DigitChar(c)]
  {
    NatToStringStep(10 * (10 * q + a) + b, c);
    NatToStringStep(10 * q + a, b);
    NatToStringStep(q, a);
  }

  /** The last three digits of `n` split off its decimal form. */
  lemma NatToStringSplit(n: nat)
    requires n >= 1000
    ensures NatToString(n) == NatToString(n / 1000) + Pad3(n % 1000)
  {
    var q, r := n / 1000, n % 1000;
    ThousandsDigits(n);
    NatToStringThreeSteps(q, r / 100, r / 10 % 10, r % 10);
  }

  lemma {:induction false} GroupThousandsDigits(n: nat)
    ensures RemoveCommas(GroupThousands(n)) == NatToString(n)
  {
    if n < 1000 {
      RemoveCommasOfDigits(NatToString(n));
    } else {
      GroupThousandsDigits(n / 1000);
      assert GroupThousands(n) == GroupThousands(n / 1000) + ("," + Pad3(n % 1000));
      RemoveCommasAppend(GroupThousands(n / 1000), "," + Pad3(n % 1000));
      RemoveCommasAppend(",", Pad3(n % 1000));
      RemoveCommasOfDigits(Pad3(n % 1000));
      NatToStringSplit(n);
    }
  }

  /** Deleting the separators from `f"{n:,}"` gives back `str(n)`. */
  lemma FormatThousandsDigits(n: int)
    ensures RemoveCommas(FormatThousands(n)) == IntToString(n)
  {
    var m := if n < 0 then -n else n;
    GroupThousandsDigits(m);
    if n < 0 {
      RemoveCommasAppend("-", GroupThousands(m));
    }
  }

  /** The layout of `f"{n:,}"` for `n >= 0`: index `i` holds a comma
      exactly when `|s| - i` is a multiple of four (so 3, 7, 11, ...
      characters follow it), every other character is a digit, and the
      length is not a multiple of four, so the first group has one to three
      digits and each later one three. */
  predicate ThousandsShaped(s: string) {
    |s| % 4 != 0 &&
    forall i :: 0 <= i < |s| ==> (s[i] == ',' <==> (|s| - i) % 4 == 0) && (s[i] != ',' ==> IsDigit(s[i]))
  }

  lemma ShortNatToString(n: nat)
    requires n < 1000
    ensures 1 <= |NatToString(n)| <= 3
  {
    if n >= 10 {
      assert NatToString(n) == NatToString(n / 10) + [DigitChar(n % 10)];
      if n >= 100 {
        assert NatToString(n / 10) == NatToString(n / 100) + [DigitChar(n / 10 % 10)];
      }
    }
  }

  /** A shaped string followed by a comma and three digits is shaped. */
  lemma ShapedAppendGroup(t: string, g: string)
    requires ThousandsShaped(t) && |g| == 3 && AllDigits(g)
    ensures ThousandsShaped(t + "," + g)
  {
    var s := t + "," + g;
    assert |s| == |t| + 4;
    forall i | 0 <= i < |s|
      ensures (s[i] == ',' <==> (|s| - i) % 4 == 0) && (s[i] != ',' ==> IsDigit(s[i]))
    {
      if i < |t| {
        assert s[i] == t[i] && |s| - i == (|t| - i) + 4;
      } else if i == |t| {
        assert s[i] == ',';
      } else {
        assert s[i] == g[i - |t| - 1];
      }
    }
  }

  lemma {:induction false} GroupThousandsShape(n: nat)
    ensures ThousandsShaped(GroupThousands(n))
  {
    if n < 1000 {
      var s := NatToString(n);
      ShortNatToString(n);
      assert forall i :: 0 <= i < |s| ==> s[i] != ',' && 1 <= |s| - i <= 3;
    } else {
      GroupThousandsShape(n / 1000);
      ShapedAppendGroup(GroupThousands(n / 1000), Pad3(n % 1000));
    }
  }

  /** `f"{n:,}"` for any integer: the layout of `ThousandsShaped`, after a
      `-` for a negative number. */
  lemma FormatThousandsShape(n: int)
    ensures n >= 0 ==> ThousandsShaped(FormatThousands(n))
    ensures n < 0 ==> var s := FormatThousands(n);
      s[0] == '-' && ThousandsShaped(s[1..])
  {
    GroupThousandsShape(if n < 0 then -n else n);
    if n < 0 {
      assert FormatThousands(n)[1..] == GroupThousands(-n);
    }
  }
}
