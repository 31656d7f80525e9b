/**
  What single durations are read and printed as: the six units, exponents and
  hexadecimal numbers, what is refused, the printed forms, and the edges of the
  rounding.
  */
module DurationForms {
  import opened Base
  import opened Binary64
  import opened Digits
  import opened Duration
  import opened Powers

  // ------------------------------------------------------------------- units

  lemma TimesExact(n: nat, ns: nat)
    requires 0 < ns && n * ns <= 0x20_0000_0000_0000
    ensures Plus(Double, 0.0, Times(Double, n as real, ns)) == (n * ns) as real
  {
    NoLarger(n, ns);
    RoundInteger(n, 0);
    RoundInteger(n * ns, 0);
    hide Round, Mul;
    assert Power2(0) == 1;
    MulWhole(n, ns);
  }

  lemma NoLarger(n: nat, ns: nat)
    requires 0 < ns
    ensures n <= n * ns
  {
    assert n * ns == n + n * (ns - 1);
  }

  lemma MulWhole(m: nat, ns: nat)
    ensures Mul(m as real, ns as real) == (m * ns) as real
  {
  }

  lemma UnitReads(n: nat, i: nat, text: string, ns: nat)
    requires i < |UNITS| && UNITS[i] == Unit(text, ns) && 0 < ns && n * ns <= 0x20_0000_0000_0000
    ensures Parse(Print(n) + text) == Some(n * ns)
  {
    ValuePrint(n);
    hide UNITS, Terms, Times, Plus, Print, Value;
    WholeParses(Double, n, i, text, ns, "", 0.0);
    TimesExact(n, ns);
    TermsStop(Double, "", (n * ns) as real);
    assert text + "" == text;
    assert ((n * ns) as real).Floor == n * ns;
  }

  /** A whole number of any unit, up to the 53 bits of the arithmetic. */
  lemma UnitsMean(n: nat)
    ensures n <= 0x20_0000_0000_0000 ==> Parse(Print(n) + "ns") == Some(n)
    ensures n * 1_000 <= 0x20_0000_0000_0000 ==> Parse(Print(n) + "us") == Some(n * 1_000)
    ensures n * 1_000_000 <= 0x20_0000_0000_0000 ==> Parse(Print(n) + "ms") == Some(n * 1_000_000)
    ensures n * 1_000_000_000 <= 0x20_0000_0000_0000 ==> Parse(Print(n) + "s") == Some(n * 1_000_000_000)
    ensures n * 60_000_000_000 <= 0x20_0000_0000_0000 ==> Parse(Print(n) + "m") == Some(n * 60_000_000_000)
    ensures n * 3_600_000_000_000 <= 0x20_0000_0000_0000 ==> Parse(Print(n) + "h") == Some(n * 3_600_000_000_000)
  {
    UnitRows();
    hide UNITS, Parse, Print;
    if n <= 0x20_0000_0000_0000 { UnitReads(n, 0, "ns", 1); }
    if n * 1_000 <= 0x20_0000_0000_0000 { UnitReads(n, 1, "us", 1_000); }
    if n * 1_000_000 <= 0x20_0000_0000_0000 { UnitReads(n, 2, "ms", 1_000_000); }
    if n * 1_000_000_000 <= 0x20_0000_0000_0000 { UnitReads(n, 3, "s", 1_000_000_000); }
    if n * 60_000_000_000 <= 0x20_0000_0000_0000 { UnitReads(n, 4, "m", 60_000_000_000); }
    if n * 3_600_000_000_000 <= 0x20_0000_0000_0000 { UnitReads(n, 5, "h", 3_600_000_000_000); }
  }

  // ---------------------------------------------------------------- exponents

  /** The marker of an exponent, with its sign when there is one. */
  predicate Lead(lead: string) {
    && 1 <= |lead| <= 2 && (lead[0] == 'e' || lead[0] == 'E')
    && (|lead| == 2 ==> lead[1] == '+' || lead[1] == '-')
  }

  function Signed(lead: string, n: int): int {
    if |lead| == 2 && lead[1] == '-' then -n else n
  }

  lemma PowerReads(lead: string, digits: string, tail: string)
    requires Lead(lead) && digits != [] && AllDigits(digits) && (tail != [] ==> !IsDigit(tail[0]))
    ensures ScanPower(lead + digits + tail, 'e', 'E') == Power(|lead| + |digits|, Signed(lead, Value(digits)))
  {
    DigitRunIs(digits, tail);
    NotSign(digits[0]);
    LeadParts(lead, digits, tail);
    PowerOf(lead + digits + tail, lead, digits);
  }

  lemma LeadParts(lead: string, digits: string, tail: string)
    requires Lead(lead) && digits != []
    ensures var s := lead + digits + tail;
      && 1 < |s| && s[0] == lead[0] && s[1] == (if |lead| == 1 then digits[0] else lead[1])
      && s[|lead|..] == digits + tail && s[|lead|..][..|digits|] == digits
  {
  }

  lemma PowerOf(s: string, lead: string, digits: string)
    requires Lead(lead) && digits != [] && 1 < |s| && s[0] == lead[0]
    requires s[1] == (if |lead| == 1 then digits[0] else lead[1]) && digits[0] != '+' && digits[0] != '-'
    requires |lead| <= |s| && DigitRun(s[|lead|..]) == |digits| && s[|lead|..][..|digits|] == digits
    ensures ScanPower(s, 'e', 'E') == Power(|lead| + |digits|, Signed(lead, Value(digits)))
  {
    hide DigitRun, Value;
  }

  lemma NotSign(c: char)
    requires IsDigit(c)
    ensures c != '+' && c != '-'
  {
  }

  /** Digits, decimals and a power of ten, with or without its sign. */
  lemma ExponentReads(a: string, d: string, lead: string, digits: string, tail: string)
    requires AllDigits(a) && a != [] && AllDigits(d) && Lead(lead)
    requires digits != [] && AllDigits(digits) && (tail != [] ==> !IsDigit(tail[0]))
    ensures Strtod(a + Point(d) + (lead + digits + tail)) ==
      Some(Literal(|a + Point(d)| + |lead| + |digits|, Decimal(Value(a + d), Signed(lead, Value(digits)) - |d|)))
  {
    var rest := lead + digits + tail;
    hide Hexadecimal, Scan, ScanPower, Value, Decimal, Point, DigitRun, Signed, AllDigits, Strtod;
    PowerReads(lead, digits, tail);
    MarkStands(rest, lead[0]);
    MarkNotHexadecimal(a, d, rest);
    ScanPrinted(a, d, rest);
    StrtodWith(a + Point(d), rest, Value(a + d), |d|);
  }

  lemma MarkStands(rest: string, mark: char)
    requires rest != [] && rest[0] == mark && (mark == 'e' || mark == 'E')
    ensures !IsDigit(rest[0]) && rest[0] != '.'
  {
  }

  lemma StrtodWith(front: string, rest: string, mantissa: nat, places: nat)
    requires !Hexadecimal(front + rest) && front != []
    requires Scan(front + rest) == Some(Front(|front|, mantissa, places))
    ensures var p := ScanPower(rest, 'e', 'E');
      Strtod(front + rest) == Some(Literal(|front| + p.len, Decimal(mantissa, p.exponent - places)))
  {
    hide Hexadecimal, Scan, ScanPower, Decimal;
    assert (front + rest)[|front|..] == rest;
  }

  lemma MarkNotHexadecimal(a: string, d: string, tail: string)
    requires AllDigits(a) && a != [] && tail != [] && (tail[0] == 'e' || tail[0] == 'E')
    ensures !Hexadecimal(a + Point(d) + tail)
  {
    var s := a + Point(d) + tail;
    if 1 < |a| {
      assert s[1] == a[1];
    } else if d == [] {
      assert s[1] == tail[0];
    } else {
      assert s[1] == '.';
    }
  }

  /** Nanoseconds written with a power of ten. */
  lemma ScientificMeans(n: nat, k: nat)
    requires n * Pow10(k) <= 0x20_0000_0000_0000
    ensures Parse(Print(n) + "e" + Print(k) + "ns") == Some(n * Pow10(k))
  {
    hide Strtod, Decimal, Parse, Pow10;
    ScientificLiteral(n, k);
    NanosParse(Print(n) + "e" + Print(k) + "ns", |Print(n)| + 1 + |Print(k)|, n, k);
  }

  lemma NanosParse(s: string, len: nat, n: nat, k: nat)
    requires n * Pow10(k) <= 0x20_0000_0000_0000
    requires s != [] && s[0] != '\0' && IsDigit(s[0]) && Strtod(s) == Some(Literal(len, Decimal(n, k)))
    requires len <= |s| && s[len..] == "ns"
    ensures Parse(s) == Some(n * Pow10(k))
  {
    var v := n * Pow10(k);
    assert Decimal(n, k) == v as real;
    hide Terms, Plus, Times, Strtod, FindUnit, UNITS, Pow10, Decimal, Parse;
    NanoFound();
    NanoTerm(s, Literal(len, v as real));
    TimesExact(v, 1);
    OneTerm(s, v);
  }

  lemma NanoFound()
    ensures FindUnit("ns", 0) == Some(Unit("ns", 1))
  {
    UnitRows();
    UnitFound(0, "");
    hide UNITS, FindUnit;
    assert "ns" + "" == "ns";
  }

  lemma ScientificLiteral(n: nat, k: nat)
    ensures var (a, d) := (Print(n), Print(k)); var s := a + "e" + d + "ns";
      && Strtod(s) == Some(Literal(|a| + 1 + |d|, Decimal(n, k)))
      && s[|a| + 1 + |d|..] == "ns" && s[0] != '\0' && IsDigit(s[0])
  {
    hide Print, Strtod, Decimal, Value, AllDigits, IsDigit;
    ValuePrint(n);
    ValuePrint(k);
    LiteralOf(Print(n), Print(k));
  }

  lemma LiteralOf(a: string, d: string)
    requires AllDigits(a) && a != [] && AllDigits(d) && d != []
    ensures var s := a + "e" + d + "ns";
      && Strtod(s) == Some(Literal(|a| + 1 + |d|, Decimal(Value(a), Value(d))))
      && s[|a| + 1 + |d|..] == "ns" && s[0] != '\0' && IsDigit(s[0])
  {
    FirstDigit(a);
    Letters();
    hide Strtod, Decimal, Value, AllDigits, IsDigit;
    PlainExponent(a, "e", d, "ns");
    Pieces(a, "e", d, "ns");
  }

  lemma Letters()
    ensures !IsDigit("ns"[0])
  {
  }

  lemma Pieces(a: string, e: string, d: string, tail: string)
    requires a != []
    ensures var s := a + e + d + tail; s == a + (e + d + tail) && s[|a| + |e| + |d|..] == tail && s[0] == a[0]
  {
  }

  lemma PlainExponent(a: string, e: string, digits: string, tail: string)
    requires AllDigits(a) && a != [] && e == "e"
    requires digits != [] && AllDigits(digits) && (tail != [] ==> !IsDigit(tail[0]))
    ensures Strtod(a + (e + digits + tail)) == Some(Literal(|a| + 1 + |digits|, Decimal(Value(a), Value(digits))))
  {
    Nothing(a);
    hide Strtod, Decimal, Value, AllDigits, IsDigit, Point;
    ExponentReads(a, "", e, digits, tail);
  }

  lemma Nothing(a: string)
    ensures a + Point("") == a && a + "" == a && AllDigits("")
  {
  }

  lemma NanoTerm(s: string, l: Literal)
    requires s != [] && s[0] != '\0' && IsDigit(s[0]) && 0.0 <= l.value && Strtod(s) == Some(l)
    requires l.len <= |s| && s[l.len..] == "ns" && FindUnit("ns", 0) == Some(Unit("ns", 1))
    ensures Terms(Double, s, 0.0) == Some(Plus(Double, 0.0, Times(Double, l.value, 1)))
  {
    hide Strtod, FindUnit, Terms, Plus, Times;
    TermsStep(Double, s, 0.0, l, Unit("ns", 1));
    assert "ns"[2..] == "";
    TermsStop(Double, "", Plus(Double, 0.0, Times(Double, l.value, 1)));
  }

  lemma OneTerm(s: string, v: nat)
    requires s != [] && v <= 0x20_0000_0000_0000 && Terms(Double, s, 0.0) == Some(v as real)
    ensures Parse(s) == Some(v)
  {
    hide Terms;
    assert (v as real).Floor == v;
  }

  // -------------------------------------------------------------- hexadecimal

  predicate AllHex(s: string) {
    forall i :: 0 <= i < |s| ==> HexDigit(s[i]) != None
  }

  lemma {:induction false} HexRunIs(h: string, tail: string)
    requires AllHex(h) && (tail != [] ==> HexDigit(tail[0]) == None)
    ensures HexRun(h + tail) == |h|
  {
    hide HexDigit;
    if h == [] {
      assert h + tail == tail;
    } else {
      assert (h + tail)[1..] == h[1..] + tail;
      HexRunIs(h[1..], tail);
    }
  }

  /** A whole hexadecimal number before a unit. */
  lemma HexReads(x: char, h: string, tail: string)
    requires (x == 'x' || x == 'X') && h != [] && AllHex(h)
    requires tail != [] && HexDigit(tail[0]) == None && tail[0] != '.' && tail[0] != 'p' && tail[0] != 'P'
    ensures Strtod(['0', x] + (h + tail)) == Some(Literal(2 + |h|, HexValue(h) as real))
  {
    HexRunIs(h, tail);
    HexParts(x, h, tail);
    HexFront(h, tail);
    hide HexDigit, HexValue, HexRun, ScanHex, Strtod;
    HexAt(['0', x] + (h + tail), h, tail);
  }

  lemma HexParts(x: char, h: string, tail: string)
    ensures var s := ['0', x] + (h + tail); s[2..] == h + tail && s[2 + |h|..] == tail && s[0] == '0' && s[1] == x
  {
  }

  lemma HexAt(s: string, h: string, tail: string)
    requires 2 + |h| <= |s| && s[0] == '0' && (s[1] == 'x' || s[1] == 'X') && s[2 + |h|..] == tail
    requires ScanHex(s[2..]) == Some(Front(|h|, HexValue(h), 0))
    requires tail != [] && tail[0] != 'p' && tail[0] != 'P'
    ensures Strtod(s) == Some(Literal(2 + |h|, HexValue(h) as real))
  {
    hide HexValue, ScanHex;
    assert Power2(0) == 1;
  }

  lemma HexFront(h: string, tail: string)
    requires h != [] && HexRun(h + tail) == |h| && (tail == [] || tail[0] != '.')
    ensures ScanHex(h + tail) == Some(Front(|h|, HexValue(h), 0))
  {
    hide HexRun, HexValue;
    assert (h + tail)[..|h|] == h;
  }

  /** The digits' values. */
  lemma HexDigits()
    ensures HexValue("09") == 9 && HexValue("aF") == 175 && HexValue("Af") == 175 && HexValue("10") == 16
  {
  }

  // ----------------------------------------------------------------- refusals

  /** Nothing, a sign, a number without a unit, and a number before an unknown one. */
  lemma Refused(n: nat, c: char, rest: string)
    ensures Parse("") == None && Parse("-" + rest) == None && Parse(Print(n)) == None
    ensures UnitLetter(c) && c !in ['n', 'u', 'm', 's', 'h'] ==> Parse(Print(n) + ([c] + rest)) == None
  {
    TermsStop(Double, "-" + rest, 0.0);
    Bare(n);
    if UnitLetter(c) && c !in ['n', 'u', 'm', 's', 'h'] {
      NoUnit(c, rest);
      ValuePrint(n);
      FirstDigit(Print(n));
      hide Print, Terms, UNITS, FindUnit;
      var tail := [c] + rest;
      assert Print(n) + Point("") == Print(n);
      StrtodPrinted(Print(n), "", tail);
      hide Strtod;
      assert (Print(n) + tail)[|Print(n)|..] == tail && (Print(n) + tail)[0] == Print(n)[0];
      TermsStop(Double, Print(n) + tail, 0.0);
    }
  }

  lemma NoUnit(c: char, rest: string)
    requires c !in ['n', 'u', 'm', 's', 'h']
    ensures FindUnit([c] + rest, 0) == None
  {
    forall u | u in UNITS ensures !UnitAt([c] + rest, u) {
      FirstLetters(u);
      hide UNITS;
      assert u.text[0] != ([c] + rest)[0];
    }
  }

  lemma FirstLetters(u: Unit)
    requires u in UNITS
    ensures u.text != [] && u.text[0] in ['n', 'u', 'm', 's', 'h']
  {
  }

  lemma Bare(n: nat)
    ensures Parse(Print(n)) == None
  {
    var s := Print(n);
    ValuePrint(n);
    FirstDigit(s);
    DigitRunIs(s, "");
    hide Print, Terms, UNITS, Value, DigitRun;
    assert s + "" == s && s[|s|..] == "" && s[..|s|] == s;
    assert !Hexadecimal(s) by {
      assert 1 < |s| ==> IsDigit(s[1]);
    }
    assert Scan(s) == Some(Front(|s|, Value(s), 0));
    hide Hexadecimal, Scan;
    NoText();
    TermsStop(Double, s, 0.0);
  }

  lemma NoText()
    ensures FindUnit("", 0) == None
  {
    UnitTexts();
    hide UNITS;
  }

  // ------------------------------------------------------------ printed forms

  /** Below one second "[M].[F]ms", but "0s" for zero; above, seconds, with minutes from
      one minute on and hours from one hour on. */
  lemma HumanForms(ns: nat)
    ensures ns == 0 ==> Human(ns) == "0s"
    ensures 0 < ns < 1_000_000_000 ==>
      Human(ns) == Print(ns / 1_000_000) + Point(Decimals(ns % 1_000_000 * 1_000)) + "ms"
    ensures 1_000_000_000 <= ns ==>
      var seconds := Print(ns / 1_000_000_000 % 60) + Point(Decimals(ns % 1_000_000_000)) + "s";
      var minutes := Print(ns / 60_000_000_000 % 60) + "m";
      Human(ns) == if ns < 60_000_000_000 then seconds
                   else if ns < 3_600_000_000_000 then minutes + seconds
                   else Print(ns / 3_600_000_000_000) + "h" + minutes + seconds
  {
    Nines();
    if 1_000_000_000 <= ns {
      hide Print, Decimals, Point, Human;
      ClockForms(ns);
    } else if 0 < ns {
      MilliForm(ns);
    }
  }

  lemma MilliForm(ns: nat)
    requires 0 < ns < 1_000_000_000
    ensures Human(ns) == Print(ns / 1_000_000) + Point(Decimals(ns % 1_000_000 * 1_000)) + "ms"
  {
    Nines();
    DecimalsMeaning(ns % 1_000_000 * 1_000);
    hide Print, Fraction, Decimals, Point, Value, Pow10;
  }

  lemma ClockForms(ns: nat)
    requires 1_000_000_000 <= ns
    ensures
      var seconds := Print(ns / 1_000_000_000 % 60) + Point(Decimals(ns % 1_000_000_000)) + "s";
      var minutes := Print(ns / 60_000_000_000 % 60) + "m";
      Human(ns) == if ns < 60_000_000_000 then seconds
                   else if ns < 3_600_000_000_000 then minutes + seconds
                   else Print(ns / 3_600_000_000_000) + "h" + minutes + seconds
  {
    ClockArithmetic(ns);
    Nines();
    DecimalsMeaning(ns % 1_000_000_000);
    hide Print, Fraction, Decimals, Pow10, Value, Point, Hours, Minutes, Rest;
  }

  lemma ClockArithmetic(ns: nat)
    ensures Hours(ns) == ns / 3_600_000_000_000 && Minutes(ns) == ns / 60_000_000_000 % 60
    ensures Rest(ns) / 1_000_000_000 == ns / 1_000_000_000 % 60 && Rest(ns) % 1_000_000_000 == ns % 1_000_000_000
  {
    var (h, m, r) := (Hours(ns), Minutes(ns), Rest(ns));
    var (s, f) := (r / 1_000_000_000, r % 1_000_000_000);
    ClockParts(ns, h, m, s, f);
  }

  lemma ClockParts(ns: nat, h: nat, m: nat, s: nat, f: nat)
    requires m < 60 && s < 60 && f < 1_000_000_000
    requires ns == h * 3_600_000_000_000 + m * 60_000_000_000 + s * 1_000_000_000 + f
    ensures ns / 60_000_000_000 % 60 == m && ns / 1_000_000_000 % 60 == s && ns % 1_000_000_000 == f
  {
    QuotientIs(ns, 60_000_000_000, h * 60 + m, s * 1_000_000_000 + f);
    QuotientIs(h * 60 + m, 60, h, m);
    QuotientIs(ns, 1_000_000_000, h * 3600 + m * 60 + s, f);
    QuotientIs(h * 3600 + m * 60 + s, 60, h * 60 + m, s);
  }

  // ------------------------------------------------------- edges of the rounding

  /** Ties go to the even neighbour: at the end of the whole numbers, and between
      zero and the least positive number. */
  lemma TiesToEven()
    ensures Round(9_007_199_254_740_993.0) == 9_007_199_254_740_992.0
    ensures Round(9_007_199_254_740_995.0) == 9_007_199_254_740_996.0
    ensures 0.0 < Div(1.0, Two(1074)) && Round(Div(1.0, Two(1074))) == Div(1.0, Two(1074))
    ensures 0.0 < Div(0.5, Two(1074)) && Round(Div(0.5, Two(1074))) == 0.0
  {
    PastWhole(9_007_199_254_740_993.0, 4_503_599_627_370_496);
    PastWhole(9_007_199_254_740_995.0, 4_503_599_627_370_498);
    LeastPositive(1074);
  }

  lemma PastWhole(a: real, n: nat)
    requires 9_007_199_254_740_992.0 <= a < 18_014_398_509_481_984.0
    requires n % 2 == 0 && -0.5 <= a / 2.0 - n as real <= 0.5
    ensures Round(a) == 2.0 * n as real
  {
    assert Two(1) == 2.0 by { assert Power2(1) == 2 * Power2(0); }
    RoundScaled(a, 1, 0);
    DivOne(a);
    NearestIs(Div(a, 2.0), n);
    DivOne(Mul(n as real, 2.0));
    hide Round, Nearest, Two;
  }

  lemma LeastPositive(deepest: nat)
    requires deepest == DEEPEST
    ensures 0.0 < Div(1.0, Two(deepest)) && Round(Div(1.0, Two(deepest))) == Div(1.0, Two(deepest))
    ensures 0.0 < Div(0.5, Two(deepest)) && Round(Div(0.5, Two(deepest))) == 0.0
  {
    var t := Two(deepest);
    assert 0.0 < 1.0 / t && 0.0 < 0.5 / t;
    assert Mul(1.0 / t, t) == 1.0 && Mul(0.5 / t, t) == 0.5;
    hide Two;
  }
}
