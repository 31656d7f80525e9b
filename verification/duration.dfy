/**
  Durations: the printer in the style of Go's time.Duration, and the parser of
  the Go duration grammar in binary64 arithmetic.
  */
module Duration {
  import opened Base
  import opened Binary64
  import opened Digits
  import opened Powers

  // ---------------------------------------------------------------- printing

  /** `%09lld` of a remainder below 10^9. */
  function Pad9(n: nat): string {
    var s := Print(n);
    if |s| < 9 then seq(9 - |s|, _ => '0') + s else s
  }

  function StripZeros(s: string): string {
    if s != [] && s[|s| - 1] == '0' then StripZeros(s[..|s| - 1]) else s
  }

  /** The fractional part as ".ddd" without trailing zeros; nothing for zero. */
  function Fraction(frac: nat): string {
    if frac == 0 then "" else "." + StripZeros(Pad9(frac))
  }

  method AppendFraction(out: string, frac: nat) returns (out': string)
    ensures out' == out + Fraction(frac)
  {
    if frac == 0 {
      return out;
    }
    var digits := Pad9(frac);
    while digits != [] && digits[|digits| - 1] == '0'
      invariant StripZeros(digits) == StripZeros(Pad9(frac))
      decreases |digits|
    {
      digits := digits[..|digits| - 1];
    }
    out' := out + ".";
    out' := out' + digits;
  }

  function Hours(ns: nat): nat { ns / 3_600_000_000_000 }
  function Minutes(ns: nat): nat { ns % 3_600_000_000_000 / 60_000_000_000 }
  function Rest(ns: nat): nat { ns % 3_600_000_000_000 % 60_000_000_000 }

  function HourPart(hours: nat): string {
    if 0 < hours then Print(hours) + "h" else ""
  }

  function MinutePart(hours: nat, minutes: nat): string {
    if 0 < hours || 0 < minutes then Print(minutes) + "m" else ""
  }

  function SecondPart(rest: nat): string {
    Print(rest / 1_000_000_000) + Fraction(rest % 1_000_000_000) + "s"
  }

  function MilliPart(ns: nat): string {
    Print(ns / 1_000_000) + Fraction(ns % 1_000_000 * 1000) + "ms"
  }

  /** Milliseconds below one second, otherwise hours, minutes and seconds with
      the leading parts suppressed. */
  function Human(ns: nat): string {
    if ns == 0 then "0s"
    else if ns < 1_000_000_000 then MilliPart(ns)
    else HourPart(Hours(ns)) + MinutePart(Hours(ns), Minutes(ns)) + SecondPart(Rest(ns))
  }

  method HumanDuration(ns0: int) returns (out: string)
    ensures out == Human(if ns0 < 0 then -ns0 else ns0)
  {
    hide Print, Fraction;
    var ns: nat := if ns0 < 0 then -ns0 else ns0;
    if ns == 0 {
      return "0s";
    }
    if ns < 1_000_000_000 {
      out := Print(ns / 1_000_000);
      out := AppendFraction(out, ns % 1_000_000 * 1000);
      out := out + "ms";
      return;
    }
    var hours := ns / 3_600_000_000_000;
    var rem := ns % 3_600_000_000_000;
    var minutes := rem / 60_000_000_000;
    rem := rem % 60_000_000_000;
    assert hours == Hours(ns) && minutes == Minutes(ns) && rem == Rest(ns);
    out := HumanClock(hours, minutes, rem);
  }

  /** The "[Hh][Mm]Ss" form. */
  method HumanClock(hours: nat, minutes: nat, rem: nat) returns (out: string)
    ensures out == HourPart(hours) + MinutePart(hours, minutes) + SecondPart(rem)
  {
    hide Print, Fraction;
    var seconds := rem / 1_000_000_000;
    var frac := rem % 1_000_000_000;
    out := "";
    if 0 < hours {
      out := out + (Print(hours) + "h");
    }
    if 0 < hours || 0 < minutes {
      out := out + (Print(minutes) + "m");
    }
    assert out == HourPart(hours) + MinutePart(hours, minutes);
    out := out + Print(seconds);
    out := AppendFraction(out, frac);
    out := out + "s";
  }

  // ---------------------------------------------------------------- literals

  /** The digits of a literal with an optional point: its length, and its value
      mantissa / base^places. */
  datatype Front = Front(len: nat, mantissa: nat, places: nat)

  /** The longest decimal front: at least one digit in all. */
  function Scan(s: string): (l: Option<Front>)
    ensures l.Some? ==> 0 < l.value.len <= |s|
  {
    var a := DigitRun(s);
    if a < |s| && s[a] == '.' then
      var b := DigitRun(s[a + 1..]);
      if a + b == 0 then None else Some(Front(a + 1 + b, Value(s[..a] + s[a + 1..][..b]), b))
    else if a == 0 then None
    else Some(Front(a, Value(s[..a]), 0))
  }

  function HexDigit(c: char): Option<nat> {
    if IsDigit(c) then Some(DigitValue(c))
    else if 'a' <= c <= 'f' then Some((c - 'a') as nat + 10)
    else if 'A' <= c <= 'F' then Some((c - 'A') as nat + 10)
    else None
  }

  function HexRun(s: string): (n: nat)
    ensures n <= |s|
  {
    if s == [] || HexDigit(s[0]) == None then 0 else 1 + HexRun(s[1..])
  }

  function HexValue(s: string): nat {
    if s == [] then 0
    else 16 * HexValue(s[..|s| - 1]) + match HexDigit(s[|s| - 1]) case Some(v) => v case None => 0
  }

  /** The longest hexadecimal front, after its "0x". */
  function ScanHex(s: string): (l: Option<Front>)
    ensures l.Some? ==> 0 < l.value.len <= |s|
  {
    var a := HexRun(s);
    if a < |s| && s[a] == '.' then
      var b := HexRun(s[a + 1..]);
      if a + b == 0 then None else Some(Front(a + 1 + b, HexValue(s[..a] + s[a + 1..][..b]), b))
    else if a == 0 then None
    else Some(Front(a, HexValue(s[..a]), 0))
  }

  datatype Power = Power(len: nat, exponent: int)

  /** An exponent: its marker in either case, an optional sign, digits. */
  function ScanPower(s: string, lower: char, upper: char): (p: Power)
    ensures p.len <= |s|
  {
    if s == [] || (s[0] != lower && s[0] != upper) then Power(0, 0)
    else
      var signed := 1 < |s| && (s[1] == '+' || s[1] == '-');
      var at := if signed then 2 else 1;
      var n := DigitRun(s[at..]);
      if n == 0 then Power(0, 0)
      else
        var e: int := Value(s[at..][..n]);
        Power(at + n, if signed && s[1] == '-' then -e else e)
  }

  /** mantissa * 10^exponent, and mantissa * 2^exponent. */
  function Decimal(mantissa: nat, exponent: int): (x: real)
    ensures 0.0 <= x
  {
    if 0 <= exponent then (mantissa * Pow10(exponent)) as real
    else
      Pow10Positive(-exponent);
      Signs(mantissa as real, Pow10(-exponent) as real);
      Div(mantissa as real, Pow10(-exponent) as real)
  }

  function Dyadic(mantissa: nat, exponent: int): (x: real)
    ensures 0.0 <= x
  {
    if 0 <= exponent then (mantissa * Power2(exponent)) as real
    else
      Signs(mantissa as real, Two(-exponent));
      Div(mantissa as real, Two(-exponent))
  }

  /** A numeric literal: how many characters it takes, and the number it denotes. */
  datatype Literal = Literal(len: nat, value: real)

  /** What strtod reads at a digit or a point in the C locale, before rounding. */
  function Strtod(s: string): (l: Option<Literal>)
    ensures l.Some? ==> 0 < l.value.len <= |s| && 0.0 <= l.value.value
  {
    if Hexadecimal(s) then
      var f := ScanHex(s[2..]).value;
      var p := ScanPower(s[2 + f.len..], 'p', 'P');
      Some(Literal(2 + f.len + p.len, Dyadic(f.mantissa, p.exponent - 4 * f.places)))
    else match Scan(s)
      case None => None
      case Some(f) =>
        var p := ScanPower(s[f.len..], 'e', 'E');
        Some(Literal(f.len + p.len, Decimal(f.mantissa, p.exponent - f.places)))
  }

  predicate Hexadecimal(s: string) {
    2 <= |s| && s[0] == '0' && (s[1] == 'x' || s[1] == 'X') && ScanHex(s[2..]) != None
  }

  // ------------------------------------------------------------------- units

  datatype Unit = Unit(text: string, ns: nat)

  const UNITS: seq<Unit> :=
    [Unit("ns", 1), Unit("us", 1_000), Unit("ms", 1_000_000),
     Unit("s", 1_000_000_000), Unit("m", 60_000_000_000), Unit("h", 3_600_000_000_000)]

  predicate IsAlpha(c: char) { 'a' <= c <= 'z' || 'A' <= c <= 'Z' }

  /** The unit text stands at the front and no letter follows it. */
  predicate UnitAt(s: string, u: Unit) {
    u.text <= s && (|u.text| < |s| ==> !IsAlpha(s[|u.text|]))
  }

  /** The first unit of the table, from `k` on, that stands at the front. */
  function FindUnit(s: string, k: nat): (u: Option<Unit>)
    requires k <= |UNITS|
    ensures u.Some? ==> u.value in UNITS && UnitAt(s, u.value)
    decreases |UNITS| - k
  {
    if k == |UNITS| then None
    else if UnitAt(s, UNITS[k]) then Some(UNITS[k])
    else FindUnit(s, k + 1)
  }

  // ----------------------------------------------------------------- parsing

  /** The arithmetic of the program, and the one its results are measured against. */
  datatype Arithmetic = Double | Rational

  function Rounded(a: Arithmetic, x: real): (r: real)
    requires 0.0 <= x
    ensures 0.0 <= r
  {
    if a.Double? then Round(x) else x
  }

  /** A number times a unit of that many nanoseconds. */
  function Times(a: Arithmetic, x: real, ns: nat): (r: real)
    requires 0.0 <= x
    ensures 0.0 <= r
  {
    assert 0.0 <= Mul(Rounded(a, x), ns as real);
    Rounded(a, Mul(Rounded(a, x), ns as real))
  }

  function Plus(a: Arithmetic, total: real, term: real): (r: real)
    requires 0.0 <= total && 0.0 <= term
    ensures 0.0 <= r
  {
    Rounded(a, total + term)
  }

  /** The terms of a duration added to `total`, from the left. */
  function Terms(a: Arithmetic, s: string, total: real): (r: Option<real>)
    requires 0.0 <= total
    ensures r.Some? ==> 0.0 <= r.value
    decreases |s|
  {
    if s == [] || s[0] == '\0' then Some(total)
    else if !IsDigit(s[0]) && s[0] != '.' then None
    else
      var l := Strtod(s);
      if l == None then None
      else
        var u := FindUnit(s[l.value.len..], 0);
        if u == None then None
        else
          Terms(a, s[l.value.len..][|u.value.text|..], Plus(a, total, Times(a, l.value.value, u.value.ns)))
  }

  const LIMIT: real := 9_200_000_000_000_000_000.0

  function Parse(s: string): Option<int> {
    if s == [] then None
    else
      var total := Terms(Double, s, 0.0);
      if total == None || total.value > LIMIT then None else Some(total.value.Floor)
  }

  /** The unit table, searched from the front. */
  method LookUpUnit(s: string) returns (u: Option<Unit>)
    ensures u == FindUnit(s, 0)
  {
    for k := 0 to |UNITS|
      invariant FindUnit(s, k) == FindUnit(s, 0)
    {
      if UnitAt(s, UNITS[k]) {
        return Some(UNITS[k]);
      }
    }
    return None;
  }

  /** Reading one term off the front. */
  lemma TermsStep(a: Arithmetic, s: string, total: real, l: Literal, u: Unit)
    requires 0.0 <= total && 0.0 <= l.value
    requires s != [] && s[0] != '\0' && (IsDigit(s[0]) || s[0] == '.') && Strtod(s) == Some(l)
    requires l.len <= |s| && FindUnit(s[l.len..], 0) == Some(u) && u.text <= s[l.len..]
    ensures Terms(a, s, total) == Terms(a, s[l.len..][|u.text|..], Plus(a, total, Times(a, l.value, u.ns)))
  {
    hide IsDigit, Strtod, FindUnit, Times, Plus, UNITS, UnitAt;
  }

  lemma TermsStop(a: Arithmetic, s: string, total: real)
    requires 0.0 <= total
    ensures s == [] || s[0] == '\0' ==> Terms(a, s, total) == Some(total)
    ensures s != [] && s[0] != '\0' && !IsDigit(s[0]) && s[0] != '.' ==> Terms(a, s, total) == None
    ensures s != [] && s[0] != '\0' && Strtod(s) == None ==> Terms(a, s, total) == None
    ensures s != [] && s[0] != '\0' && Strtod(s) != None && FindUnit(s[Strtod(s).value.len..], 0) == None
      ==> Terms(a, s, total) == None
  {
    hide IsDigit, Strtod, FindUnit, Times, Plus, UNITS, UnitAt;
  }

  method ParseDuration(s: string) returns (r: Option<int>)
    ensures r == Parse(s)
  {
    hide Times, Plus, Strtod, FindUnit, UNITS, IsAlpha, Terms, Mul, Round;
    if s == [] {
      return None;
    }
    var p := 0;
    var total := 0.0;
    assert s[0..] == s;
    while p < |s| && s[p] != '\0'
      invariant p <= |s| && 0.0 <= total
      invariant Terms(Double, s, 0.0) == Terms(Double, s[p..], total)
    {
      TermsStop(Double, s[p..], total);
      if !IsDigit(s[p]) && s[p] != '.' {
        return None;
      }
      var l := Strtod(s[p..]);
      if l == None {
        return None;
      }
      var v := Rounded(Double, l.value.value);
      var q := p + l.value.len;
      var u := LookUpUnit(s[q..]);
      assert s[p..][l.value.len..] == s[q..];
      if u == None {
        return None;
      }
      var next := q + |u.value.text|;
      TermsStep(Double, s[p..], total, l.value, u.value);
      assert s[q..][|u.value.text|..] == s[next..];
      total := AddTerm(total, l.value.value, v, u.value.ns);
      p := next;
    }
    TermsStop(Double, s[p..], total);
    if total > LIMIT {
      return None;
    }
    return Some(total.Floor);
  }

  /** total += v * mult, each operation rounded. */
  method AddTerm(total: real, ghost x: real, v: real, ns: nat) returns (sum: real)
    requires 0.0 <= total && 0.0 <= x && v == Rounded(Double, x)
    ensures sum == Plus(Double, total, Times(Double, x, ns))
  {
    assert 0.0 <= Mul(v, ns as real);
    var product := Round(Mul(v, ns as real));
    sum := Round(total + product);
  }

  // ------------------------------------------------------------- round trip

  lemma UnitTexts()
    ensures forall u :: u in UNITS ==> 0 < |u.text| && forall i :: 0 <= i < |u.text| ==> IsAlpha(u.text[i])
  {
  }

  lemma UnitsDiffer()
    ensures forall u, v :: u in UNITS && v in UNITS && u.text == v.text ==> u == v
  {
  }

  lemma UnitDecided(u: Unit, v: Unit, rest: string)
    requires u in UNITS && v in UNITS && (rest != [] ==> IsDigit(rest[0]))
    ensures UnitAt(u.text + rest, v) <==> u == v
  {
    UnitTexts();
    UnitsDiffer();
    hide UNITS;
    var s := u.text + rest;
    if |u.text| < |s| { assert s[|u.text|] == rest[0]; }
    if v.text <= s {
      if |v.text| < |u.text| {
        assert s[|v.text|] == u.text[|v.text|];
      } else if |u.text| == |v.text| {
        assert s[..|u.text|] == u.text && s[..|v.text|] == v.text;
      }
    }
  }

  lemma {:induction false} FindUnitIs(s: string, k: nat, i: nat)
    requires k <= i < |UNITS| && UnitAt(s, UNITS[i])
    requires forall j :: k <= j < i ==> !UnitAt(s, UNITS[j])
    ensures FindUnit(s, k) == Some(UNITS[i])
    decreases i - k
  {
    hide UNITS;
    if k < i {
      FindUnitIs(s, k + 1, i);
    }
  }

  /** The table search finds the unit that was printed. */
  lemma UnitFound(i: nat, rest: string)
    requires i < |UNITS| && (rest != [] ==> IsDigit(rest[0]))
    ensures FindUnit(UNITS[i].text + rest, 0) == Some(UNITS[i])
  {
    forall j | 0 <= j <= i ensures UnitAt(UNITS[i].text + rest, UNITS[j]) <==> j == i {
      UnitDecided(UNITS[i], UNITS[j], rest);
    }
    FindUnitIs(UNITS[i].text + rest, 0, i);
  }

  function Point(d: string): string {
    if d == [] then "" else "." + d
  }

  lemma ScanPlain(a: string, tail: string)
    requires AllDigits(a) && a != []
    requires tail != [] && !IsDigit(tail[0]) && tail[0] != '.'
    ensures Scan(a + tail) == Some(Front(|a|, Value(a), 0))
  {
    DigitRunIs(a, tail);
    hide Value, DigitRun;
    assert (a + tail)[..|a|] == a;
  }

  lemma ScanAtPoint(s: string, k: nat, b: nat)
    requires DigitRun(s) == k < |s| && s[k] == '.' && DigitRun(s[k + 1..]) == b && 0 < k
    ensures Scan(s) == Some(Front(k + 1 + b, Value(s[..k] + s[k + 1..][..b]), b))
  {
    hide Value, DigitRun;
  }

  lemma ScanPointed(a: string, d: string, tail: string)
    requires AllDigits(a) && a != [] && AllDigits(d) && d != []
    requires tail != [] && !IsDigit(tail[0])
    ensures Scan(a + ("." + (d + tail))) == Some(Front(|a| + 1 + |d|, Value(a + d), |d|))
  {
    assert !IsDigit('.');
    hide Value, DigitRun, Scan, AllDigits, IsDigit;
    var t := d + tail;
    DigitRunIs(a, "." + t);
    DigitRunIs(d, tail);
    assert t[..|d|] == d;
    CutAt(a, '.', t);
    ScanAtPoint(a + ("." + t), |a|, |d|);
  }

  lemma CutAt(a: string, c: char, t: string)
    ensures var s := a + ([c] + t); |a| < |s| && s[|a|] == c && s[..|a|] == a && s[|a| + 1..] == t
  {
  }

  /** The digits of a printed term are scanned up to its unit. */
  lemma ScanPrinted(a: string, d: string, tail: string)
    requires AllDigits(a) && a != [] && AllDigits(d)
    requires tail != [] && !IsDigit(tail[0]) && tail[0] != '.'
    ensures Scan(a + Point(d) + tail) == Some(Front(|a + Point(d)|, Value(a + d), |d|))
  {
    hide Scan, Value, DigitRun, Print;
    if d == [] {
      ScanPlain(a, tail);
      assert Point(d) == "" && a + Point(d) == a && a + d == a;
    } else {
      ScanPointed(a, d, tail);
      assert Point(d) == "." + d;
      assert a + Point(d) + tail == a + ("." + (d + tail));
      assert |a + Point(d)| == |a| + 1 + |d|;
    }
  }

  /** No exponent and no hexadecimal prefix stands where a unit begins. */
  predicate UnitLetter(c: char) {
    !IsDigit(c) && c != '.' && c != 'e' && c != 'E' && c != 'x' && c != 'X'
  }

  lemma UnitLetters()
    ensures forall u :: u in UNITS ==> 0 < |u.text| && UnitLetter(u.text[0])
  {
  }

  lemma NotHexadecimal(a: string, d: string, tail: string)
    requires AllDigits(a) && a != [] && tail != [] && UnitLetter(tail[0])
    ensures !Hexadecimal(a + Point(d) + tail)
  {
    var s := a + Point(d) + tail;
    if 1 < |a| {
      assert s[1] == a[1];
    } else if d == [] {
      assert s[1] == tail[0];
    } else {
      assert s[1] == '.';
    }
  }

  /** The literal of a printed term is read up to its unit. */
  lemma StrtodPrinted(a: string, d: string, tail: string)
    requires AllDigits(a) && a != [] && AllDigits(d) && tail != [] && UnitLetter(tail[0])
    ensures Strtod(a + Point(d) + tail) == Some(Literal(|a + Point(d)|, Decimal(Value(a + d), -|d|)))
  {
    NotHexadecimal(a, d, tail);
    ScanPrinted(a, d, tail);
    var front := a + Point(d);
    assert (front + tail)[|front|..] == tail;
    hide Hexadecimal, Scan, Value, Decimal, Point;
  }

  /** A printed term is read back as that term. */
  lemma TermParses(ar: Arithmetic, a: string, d: string, i: nat, rest: string, total: real)
    requires AllDigits(a) && a != [] && AllDigits(d) && i < |UNITS| && (rest == [] || Starts(rest)) && 0.0 <= total
    ensures Terms(ar, a + Point(d) + (UNITS[i].text + rest), total) ==
      Terms(ar, rest, Plus(ar, total, Times(ar, Decimal(Value(a + d), -|d|), UNITS[i].ns)))
  {
    UnitLetters();
    UnitFound(i, rest);
    var u := UNITS[i];
    var tail := u.text + rest;
    hide Strtod, Terms, Times, Plus, Decimal, Value, FindUnit, UNITS, AllDigits;
    assert tail[0] == u.text[0];
    StrtodPrinted(a, d, tail);
    var front := a + Point(d);
    var s := front + tail;
    FirstDigit(a);
    assert s[|front|..] == tail && tail[|u.text|..] == rest && s[0] == a[0];
    TermsStep(ar, s, total, Literal(|front|, Decimal(Value(a + d), -|d|)), u);
  }

  lemma FirstDigit(a: string)
    requires AllDigits(a) && a != []
    ensures IsDigit(a[0]) && a[0] != '\0'
  {
  }

  predicate Starts(s: string) { s != [] && IsDigit(s[0]) }

  /** The decimals printed for a remainder of nanoseconds. */
  function Decimals(frac: nat): string {
    if frac == 0 then "" else StripZeros(Pad9(frac))
  }

  lemma PadMeaning(n: nat)
    requires n < Pow10(9)
    ensures |Pad9(n)| == 9 && AllDigits(Pad9(n)) && Value(Pad9(n)) == n
  {
    PrintShort(n, 9);
    ValuePrint(n);
    var s := Print(n);
    var zeros := seq(9 - |s|, _ => '0');
    ValueZeros(zeros);
    ValueConcat(zeros, s);
    hide Value, Print, Pow10;
    assert zeros + s == s || |s| < 9;
  }

  lemma {:induction false} StripMeaning(s: string)
    requires AllDigits(s)
    ensures var d := StripZeros(s); AllDigits(d) && |d| <= |s| && Value(s) == Value(d) * Pow10(|s| - |d|)
  {
    hide Value;
    if s != [] && s[|s| - 1] == '0' {
      var t := s[..|s| - 1];
      StripMeaning(t);
      StripValue(s);
      var d := StripZeros(t);
      assert 10 * (Value(d) * Pow10(|t| - |d|)) == Value(d) * Pow10(|s| - |d|);
    }
  }

  lemma {:induction false} Stripped(s: string)
    ensures var d := StripZeros(s); d != [] ==> d[|d| - 1] != '0'
  {
    if s != [] && s[|s| - 1] == '0' {
      Stripped(s[..|s| - 1]);
    }
  }

  lemma StripValue(s: string)
    requires s != [] && s[|s| - 1] == '0'
    ensures Value(s) == 10 * Value(s[..|s| - 1])
  {
  }

  lemma DecimalsMeaning(frac: nat)
    requires frac < Pow10(9)
    ensures var d := Decimals(frac);
      && AllDigits(d) && |d| <= 9 && Fraction(frac) == Point(d) && Value(d) * Pow10(9 - |d|) == frac
      && (d != [] ==> d[|d| - 1] != '0')
  {
    PadMeaning(frac);
    StripMeaning(Pad9(frac));
    Stripped(Pad9(frac));
    hide Pow10, Pad9, StripZeros;
    assert Value([]) == 0;
  }

  /** Digits, point and decimals together denote whole + frac / 10^9. */
  lemma MantissaMeaning(whole: nat, frac: nat)
    requires frac < Pow10(9)
    ensures Value(Print(whole) + Decimals(frac)) * Pow10(9) ==
      (whole * Pow10(9) + frac) * Pow10(|Decimals(frac)|)
  {
    var d := Decimals(frac);
    DecimalsMeaning(frac);
    ValuePrint(whole);
    ValueConcat(Print(whole), d);
    Pow10Add(9 - |d|, |d|);
    hide Value, Print, Pow10, Decimals, Fraction, Point;
    Rescale(Value(Print(whole) + d), whole, Value(d), frac, Pow10(|d|), Pow10(9 - |d|), Pow10(9));
  }

  lemma Rescale(m: nat, whole: nat, v: nat, frac: nat, p: nat, q: nat, r: nat)
    requires m == whole * p + v && v * q == frac && r == q * p
    ensures m * r == (whole * r + frac) * p
  {
    assert v * r == frac * p by { assert v * (q * p) == (v * q) * p; }
    assert whole * p * r == whole * r * p;
  }


  // ------------------------------------------------- the sum a rendering asks for

  /** n / ns read and multiplied by ns again. */
  function Share(a: Arithmetic, n: nat, ns: nat): (r: real)
    requires 0 < ns
    ensures 0.0 <= r
  {
    Signs(n as real, ns as real);
    Times(a, Div(n as real, ns as real), ns)
  }

  function HourSum(a: Arithmetic, hours: nat): (r: real)
    ensures 0.0 <= r
  {
    if 0 < hours then Plus(a, 0.0, Times(a, hours as real, 3_600_000_000_000)) else 0.0
  }

  function MinuteSum(a: Arithmetic, hours: nat, minutes: nat): (r: real)
    ensures 0.0 <= r
  {
    if 0 < hours || 0 < minutes
    then Plus(a, HourSum(a, hours), Times(a, minutes as real, 60_000_000_000))
    else 0.0
  }

  /** What the parser adds up for the rendering of a duration. */
  function HumanSum(a: Arithmetic, ns: nat): (r: real)
    ensures 0.0 <= r
  {
    if ns == 0 || 1_000_000_000 <= ns
    then Plus(a, MinuteSum(a, Hours(ns), Minutes(ns)), Share(a, Rest(ns), 1_000_000_000))
    else Plus(a, 0.0, Share(a, ns, 1_000_000))
  }

  lemma DecimalWhole(n: nat)
    ensures Decimal(n, 0) == n as real
  {
    assert Pow10(0) == 1;
  }

  /** A quotient of equal cross products. */
  lemma DecimalIs(m: nat, k: int, ns: nat, n: nat)
    requires 0 <= k && 0 < ns && m * ns == n * Pow10(k)
    ensures Decimal(m, -k) == Div(n as real, ns as real)
  {
    Pow10Positive(k);
    if k == 0 {
      assert Pow10(0) == 1;
      assert m * ns == n;
    }
    hide Pow10;
    var p := Pow10(k);
    assert p == 1 || k != 0;
    CrossProducts(m, p, ns, n);
    if k == 0 { DecimalWhole(m); assert m as real / 1.0 == m as real; }
  }

  lemma CrossProducts(m: nat, p: nat, ns: nat, n: nat)
    requires 0 < p && 0 < ns && m * ns == n * p
    ensures m as real / p as real == n as real / ns as real
  {
    var x, y := m as real / p as real, n as real / ns as real;
    assert x * p as real == m as real && y * ns as real == n as real;
    assert (m * ns) as real == m as real * ns as real && (n * p) as real == n as real * p as real;
    assert x * p as real * ns as real == y * ns as real * p as real;
    Divides(x, y, p as real * ns as real);
  }

  lemma Divides(x: real, y: real, c: real)
    requires c != 0.0 && x * c == y * c
    ensures x == y
  {
  }

  lemma Nines()
    ensures Pow10(9) == 1_000_000_000
  {
    assert Pow10(3) == 1000;
    Pow10Add(3, 3);
    Pow10Add(6, 3);
  }

  lemma UnitRows()
    ensures |UNITS| == 6 && UNITS[0] == Unit("ns", 1) && UNITS[1] == Unit("us", 1_000)
    ensures UNITS[2] == Unit("ms", 1_000_000) && UNITS[3] == Unit("s", 1_000_000_000)
    ensures UNITS[4] == Unit("m", 60_000_000_000) && UNITS[5] == Unit("h", 3_600_000_000_000)
  {
  }

  /** A whole number of units. */
  lemma WholeParses(a: Arithmetic, n: nat, i: nat, text: string, ns: nat, rest: string, total: real)
    requires 0.0 <= total && i < |UNITS| && UNITS[i] == Unit(text, ns) && (rest == [] || Starts(rest))
    ensures Terms(a, Print(n) + (text + rest), total) == Terms(a, rest, Plus(a, total, Times(a, n as real, ns)))
  {
    assert Point("") == "" && AllDigits("");
    hide Terms, Times, Plus, Value, Print, UNITS, Decimal, Point, AllDigits, Starts;
    ValuePrint(n);
    var s := Print(n);
    assert s + "" == s;
    TermParses(a, s, "", i, rest, total);
    DecimalWhole(n);
  }

  /** A number with decimals, ending the text. */
  lemma DecimalParses(a: Arithmetic, whole: nat, frac: nat, i: nat, u: Unit, ns: nat, total: real)
    requires 0.0 <= total && frac < Pow10(9) && i < |UNITS| && UNITS[i] == u && 0 < u.ns
    requires Value(Print(whole) + Decimals(frac)) * u.ns == ns * Pow10(|Decimals(frac)|)
    ensures Terms(a, Print(whole) + Fraction(frac) + u.text, total) == Some(Plus(a, total, Share(a, ns, u.ns)))
  {
    var d := Decimals(frac);
    hide Terms, Times, Plus, Value, Print, UNITS, Decimal, Point, Starts, Pow10, Decimals, Fraction;
    ValuePrint(whole);
    DecimalsMeaning(frac);
    TermParses(a, Print(whole), d, i, "", total);
    DecimalIs(Value(Print(whole) + d), |d|, u.ns, ns);
    TermsStop(a, "", Plus(a, total, Share(a, ns, u.ns)));
    assert u.text + "" == u.text;
  }

  lemma SecondParses(a: Arithmetic, rest: nat, total: real)
    requires 0.0 <= total
    ensures Terms(a, SecondPart(rest), total) == Some(Plus(a, total, Share(a, rest, 1_000_000_000)))
  {
    hide UNITS, Terms, Value, Print, Fraction, Decimals, Pow10, Plus, Share;
    Nines();
    UnitRows();
    var frac := rest % 1_000_000_000;
    MantissaMeaning(rest / 1_000_000_000, frac);
    DecimalParses(a, rest / 1_000_000_000, frac, 3, Unit("s", 1_000_000_000), rest, total);
  }

  lemma MilliScale(m: nat, p: nat, ns: nat)
    requires m * 1_000_000_000 == (ns / 1_000_000 * 1_000_000_000 + ns % 1_000_000 * 1000) * p
    ensures m * 1_000_000 == ns * p
  {
    assert ns / 1_000_000 * 1_000_000_000 + ns % 1_000_000 * 1000 == ns * 1000;
  }

  lemma MilliParses(a: Arithmetic, ns: nat)
    ensures Terms(a, MilliPart(ns), 0.0) == Some(Plus(a, 0.0, Share(a, ns, 1_000_000)))
  {
    hide UNITS, Terms, Value, Print, Fraction, Decimals, Pow10, Plus, Share;
    Nines();
    UnitRows();
    var frac := ns % 1_000_000 * 1000;
    MantissaMeaning(ns / 1_000_000, frac);
    MilliScale(Value(Print(ns / 1_000_000) + Decimals(frac)), Pow10(|Decimals(frac)|), ns);
    DecimalParses(a, ns / 1_000_000, frac, 2, Unit("ms", 1_000_000), ns, 0.0);
  }

  lemma StartsWithDigit(n: nat, tail: string)
    ensures Starts(Print(n) + tail)
  {
    ValuePrint(n);
    hide Print;
    assert (Print(n) + tail)[0] == Print(n)[0];
  }

  function MinutesText(minutes: nat, rest: nat): string {
    Print(minutes) + ("m" + SecondPart(rest))
  }

  function HoursText(hours: nat, minutes: nat, rest: nat): string {
    Print(hours) + ("h" + MinutesText(minutes, rest))
  }

  lemma TextsStart(minutes: nat, rest: nat)
    ensures Starts(SecondPart(rest)) && Starts(MinutesText(minutes, rest))
  {
    hide Print, Fraction, Starts;
    StartsWithDigit(rest / 1_000_000_000, Fraction(rest % 1_000_000_000) + "s");
    assert SecondPart(rest) == Print(rest / 1_000_000_000) + (Fraction(rest % 1_000_000_000) + "s");
    StartsWithDigit(minutes, "m" + SecondPart(rest));
  }

  /** Seconds, after minutes when these are shown. */
  lemma MinutesParse(a: Arithmetic, minutes: nat, rest: nat, total: real)
    requires 0.0 <= total
    ensures Terms(a, MinutesText(minutes, rest), total) ==
      Some(Plus(a, Plus(a, total, Times(a, minutes as real, 60_000_000_000)), Share(a, rest, 1_000_000_000)))
  {
    hide UNITS, Terms, Print, SecondPart, Starts, Plus, Times, Share;
    UnitRows();
    TextsStart(minutes, rest);
    WholeParses(a, minutes, 4, "m", 60_000_000_000, SecondPart(rest), total);
    SecondParses(a, rest, Plus(a, total, Times(a, minutes as real, 60_000_000_000)));
  }

  lemma HoursParse(a: Arithmetic, hours: nat, minutes: nat, rest: nat)
    requires 0 < hours
    ensures Terms(a, HoursText(hours, minutes, rest), 0.0) ==
      Some(Plus(a, MinuteSum(a, hours, minutes), Share(a, rest, 1_000_000_000)))
  {
    hide UNITS, Terms, Print, MinutesText, Starts, Plus, Times, Share;
    UnitRows();
    TextsStart(minutes, rest);
    WholeParses(a, hours, 5, "h", 3_600_000_000_000, MinutesText(minutes, rest), 0.0);
    MinutesParse(a, minutes, rest, HourSum(a, hours));
  }

  lemma ClockParses(a: Arithmetic, hours: nat, minutes: nat, rest: nat)
    ensures Terms(a, HourPart(hours) + MinutePart(hours, minutes) + SecondPart(rest), 0.0) ==
      Some(Plus(a, MinuteSum(a, hours, minutes), Share(a, rest, 1_000_000_000)))
  {
    hide Terms, Print, SecondPart, Plus, Times, Share;
    var out := HourPart(hours) + MinutePart(hours, minutes) + SecondPart(rest);
    if 0 < hours {
      HoursParse(a, hours, minutes, rest);
      assert out == HoursText(hours, minutes, rest);
    } else if 0 < minutes {
      MinutesParse(a, minutes, rest, 0.0);
      assert out == MinutesText(minutes, rest);
    } else {
      SecondParses(a, rest, 0.0);
      assert out == SecondPart(rest);
    }
  }

  /** Reading a rendering back comes to that sum, in either arithmetic. */
  lemma TermsOfHuman(a: Arithmetic, ns: nat)
    ensures Terms(a, Human(ns), 0.0) == Some(HumanSum(a, ns)) && Human(ns) != []
  {
    HumanNonEmpty(ns);
    if ns == 0 {
      assert SecondPart(0) == "0s" && Hours(0) == Minutes(0) == Rest(0) == 0;
      hide Terms, Print, SecondPart, Plus, Times, Share;
      SecondParses(a, 0, 0.0);
    } else if ns < 1_000_000_000 {
      hide Terms, Print, SecondPart, Plus, Times, Share;
      MilliParses(a, ns);
    } else {
      hide Terms, HourPart, MinutePart, SecondPart, MilliPart, Plus, Times, Share;
      ClockParses(a, Hours(ns), Minutes(ns), Rest(ns));
    }
  }

  lemma HumanNonEmpty(ns: nat)
    ensures Human(ns) != []
  {
    hide Print, Fraction;
  }

  // ------------------------------------------------------- the exact arithmetic

  lemma ExactShare(n: nat, ns: nat)
    requires 0 < ns
    ensures Share(Rational, n, ns) == n as real
  {
    assert n as real / ns as real * ns as real == n as real;
  }

  lemma ExactSum(hours: nat, minutes: nat, rest: real)
    requires 0.0 <= rest
    ensures Plus(Rational, MinuteSum(Rational, hours, minutes), rest) ==
      (hours * 3_600_000_000_000 + minutes * 60_000_000_000) as real + rest
  {
  }

  /** In exact arithmetic the terms of a rendering add up to the duration. */
  lemma HumanIsExact(ns: nat)
    ensures HumanSum(Rational, ns) == ns as real
  {
    hide Share;
    ExactShare(ns, 1_000_000);
    ExactShare(Rest(ns), 1_000_000_000);
    ExactSum(Hours(ns), Minutes(ns), Rest(ns) as real);
    assert Hours(ns) * 3_600_000_000_000 + Minutes(ns) * 60_000_000_000 + Rest(ns) == ns;
  }

  /** Two durations with the same rendering are the same duration. */
  lemma HumanInjective(m: nat, n: nat)
    requires Human(m) == Human(n)
    ensures m == n
  {
    TermsOfHuman(Rational, m);
    TermsOfHuman(Rational, n);
    HumanIsExact(m);
    HumanIsExact(n);
    hide Terms, Human, HumanSum;
    assert (m as real).Floor == m && (n as real).Floor == n;
  }
}
