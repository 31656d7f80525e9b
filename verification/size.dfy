/**
  Human byte sizes: digits, optional spaces, an optional binary suffix, in any
  case and with surrounding white space.
  */
module Size {
  import opened Base
  import opened Digits

  const INT64_MAX: int := 0x7fff_ffff_ffff_ffff

  /** The white space of the C locale. */
  predicate IsSpace(c: char): (r: bool)
    ensures r <==> c as int == 32 || 9 <= c as int <= 13
  {
    c == ' ' || c == '\t' || c == '\n' || c == '\U{0B}' || c == '\U{0C}' || c == '\r'
  }

  predicate AllSpaces(s: string) {
    forall i :: 0 <= i < |s| ==> IsSpace(s[i])
  }

  function UpperChar(c: char): char {
    if 'a' <= c <= 'z' then 'A' + (c - 'a') else c
  }

  function Upper(s: string): (u: string)
    ensures |u| == |s| && forall i :: 0 <= i < |s| ==> u[i] == UpperChar(s[i])
  {
    seq(|s|, i requires 0 <= i < |s| => UpperChar(s[i]))
  }

  predicate IsUpper(c: char) { 'A' <= c <= 'Z' }

  datatype Suffix = Suffix(text: string, mult: nat)

  const TABLE: seq<Suffix> := [
    Suffix("KIB", 0x400), Suffix("KB", 0x400), Suffix("K", 0x400),
    Suffix("MIB", 0x10_0000), Suffix("MB", 0x10_0000), Suffix("M", 0x10_0000),
    Suffix("GIB", 0x4000_0000), Suffix("GB", 0x4000_0000), Suffix("G", 0x4000_0000),
    Suffix("B", 1)]

  const NO_SUFFIX := Suffix("", 1)

  /** `n` is what `s` says: white space around digits, a gap and a suffix that
      together take fewer than 64 characters, within a signed 64-bit integer. */
  ghost predicate Denotes(s: string, n: int) {
    exists before, num, gap, text, after, suf :: Reads(s, n, before, num, gap, text, after, suf)
  }

  predicate Reads(s: string, n: int, before: string, num: string, gap: string, text: string, after: string,
                  suf: Suffix)
  {
    && s == before + (num + gap + text) + after
    && Layout(before, num, gap, text, after)
    && (suf in TABLE || suf == NO_SUFFIX) && Upper(text) == suf.text
    && n == Value(num) * suf.mult && n <= INT64_MAX
  }

  predicate Layout(before: string, num: string, gap: string, text: string, after: string) {
    && AllSpaces(before) && AllSpaces(gap) && AllSpaces(after)
    && num != [] && AllDigits(num)
    && |num + gap + text| < 64
  }

  // ------------------------------------------------------------ the parser

  function TrimLeft(s: string): string {
    if s != [] && IsSpace(s[0]) then TrimLeft(s[1..]) else s
  }

  function TrimRight(s: string): (t: string)
    ensures t <= s && AllSpaces(s[|t|..]) && (t != [] ==> !IsSpace(t[|t| - 1]))
  {
    if s != [] && IsSpace(s[|s| - 1]) then
      var t := TrimRight(s[..|s| - 1]);
      assert s[|t|..] == s[..|s| - 1][|t|..] + [s[|s| - 1]];
      t
    else s
  }

  function Trimmed(s: string): Option<string> {
    var t := TrimRight(TrimLeft(s));
    if t == [] || |t| >= 64 then None else Some(Upper(t))
  }

  lemma TrimLeftAt(s: string, i: nat)
    requires i <= |s|
    ensures TrimLeft(s[i..]) == if i < |s| && IsSpace(s[i]) then TrimLeft(s[i + 1..]) else s[i..]
  {
    assert i < |s| ==> s[i..][1..] == s[i + 1..];
  }

  lemma TrimRightAt(s: string, i: nat, j: nat)
    requires i <= j <= |s|
    ensures TrimRight(s[i..j]) == if i < j && IsSpace(s[j - 1]) then TrimRight(s[i..j - 1]) else s[i..j]
  {
    assert i < j ==> s[i..j][..j - i - 1] == s[i..j - 1];
  }

  method TrimmedUpper(s: string) returns (out: Option<string>)
    ensures out == Trimmed(s)
  {
    hide IsSpace, AllSpaces, Upper, TrimLeft, TrimRight;
    assert s[0..] == s;
    var begin := 0;
    var end := |s|;
    while begin < end && IsSpace(s[begin])
      invariant begin <= end
      invariant TrimLeft(s[begin..]) == TrimLeft(s)
    {
      TrimLeftAt(s, begin);
      begin := begin + 1;
    }
    TrimLeftAt(s, begin);
    assert s[begin..end] == s[begin..];
    while end > begin && IsSpace(s[end - 1])
      invariant begin <= end <= |s|
      invariant TrimRight(s[begin..end]) == TrimRight(s[begin..])
    {
      TrimRightAt(s, begin, end);
      end := end - 1;
    }
    TrimRightAt(s, begin, end);
    if end == begin || end - begin >= 64 {
      return None;
    }
    var upper := FoldCase(s[begin..end]);
    return Some(upper);
  }

  method FoldCase(s: string) returns (upper: string)
    ensures upper == Upper(s)
  {
    upper := s;
    for i := 0 to |s|
      invariant |upper| == |s|
      invariant forall j :: 0 <= j < |s| ==> upper[j] == if j < i then UpperChar(s[j]) else s[j]
    {
      upper := upper[i := UpperChar(upper[i])];
    }
  }

  predicate EndsWith(s: string, t: string) {
    |t| <= |s| && s[|s| - |t|..] == t
  }

  /** The first suffix of the table, from `k` on, that ends the text. */
  function FindSuffix(s: string, k: nat): (suf: Suffix)
    requires k <= |TABLE|
    ensures (suf in TABLE || suf == NO_SUFFIX) && EndsWith(s, suf.text)
    decreases |TABLE| - k
  {
    if k == |TABLE| then NO_SUFFIX
    else if EndsWith(s, TABLE[k].text) then TABLE[k]
    else FindSuffix(s, k + 1)
  }

  function SizeOf(s: string): Option<int> {
    var upper := Trimmed(s);
    if upper == None then None
    else
      var suf := FindSuffix(upper.value, 0);
      var num := TrimRight(upper.value[..|upper.value| - |suf.text|]);
      if num == [] || !AllDigits(num) || Value(num) * suf.mult > INT64_MAX then None
      else Some(Value(num) * suf.mult)
  }

  method LookUpSuffix(s: string) returns (suf: Suffix)
    ensures suf == FindSuffix(s, 0)
  {
    for k := 0 to |TABLE|
      invariant FindSuffix(s, k) == FindSuffix(s, 0)
    {
      if EndsWith(s, TABLE[k].text) {
        return TABLE[k];
      }
    }
    return NO_SUFFIX;
  }

  /** The 64-bit reading of a digit string: None is the range error. */
  function Strtoll(s: string): Option<int> {
    if Value(s) <= INT64_MAX then Some(Value(s)) else None
  }

  method ParseSize(s: string) returns (r: Option<int>)
    ensures r == SizeOf(s)
    ensures forall n :: r == Some(n) <==> Denotes(s, n)
  {
    SizeExactly(s);
    hide Trimmed, TABLE, Denotes, Value, TrimRight, FindSuffix;
    var upper := TrimmedUpper(s);
    if upper == None {
      return None;
    }
    var u := upper.value;
    var suf := LookUpSuffix(u);
    MultPositive(suf);
    ghost var body := u[..|u| - |suf.text|];
    var digits := |u| - |suf.text|;
    assert u[0..digits] == body;
    while digits > 0 && IsSpace(u[digits - 1])
      invariant 0 <= digits <= |body|
      invariant TrimRight(u[0..digits]) == TrimRight(body)
    {
      TrimRightAt(u, 0, digits);
      digits := digits - 1;
    }
    TrimRightAt(u, 0, digits);
    ghost var num := u[0..digits];
    assert num == u[..digits];
    if digits == 0 {
      return None;
    }
    for i := 0 to digits
      invariant forall j :: 0 <= j < i ==> IsDigit(u[j])
    {
      if !IsDigit(u[i]) {
        return None;
      }
    }
    var n := Strtoll(u[..digits]);
    if n == None {
      RangeTest(Value(u[..digits]), suf.mult);
      return None;
    }
    RangeTest(n.value, suf.mult);
    if suf.mult > 1 && n.value > INT64_MAX / suf.mult {
      return None;
    }
    return Some(n.value * suf.mult);
  }

  lemma MultPositive(suf: Suffix)
    requires suf in TABLE || suf == NO_SUFFIX
    ensures 0 < suf.mult
  {
  }

  /** The two overflow tests together are exactly the 64-bit bound on the
      product. */
  lemma RangeTest(n: nat, mult: nat)
    requires 0 < mult
    ensures n * mult > INT64_MAX <==> n > INT64_MAX || (mult > 1 && n > INT64_MAX / mult)
  {
    Quotient(n, mult, INT64_MAX);
    NoLarger(INT64_MAX, mult);
    hide INT64_MAX;
    assert INT64_MAX / 1 == INT64_MAX;
  }

  lemma AtLeast(q: nat, mult: nat)
    requires 0 < mult
    ensures q <= q * mult
  {
    assert q * mult == q + q * (mult - 1);
  }

  lemma NoLarger(max: nat, mult: nat)
    requires 0 < mult
    ensures max / mult <= max
  {
    DividesUp(max, mult);
    AtLeast(max / mult, mult);
  }

  lemma DividesUp(max: nat, mult: nat)
    requires 0 < mult
    ensures max / mult * mult <= max < max / mult * mult + mult
  {
  }

  lemma Quotient(n: nat, mult: nat, max: nat)
    requires 0 < mult
    ensures n * mult > max <==> n > max / mult
  {
    DividesUp(max, mult);
    Compare(n, max / mult, mult);
  }

  lemma Compare(n: nat, q: nat, mult: nat)
    requires 0 < mult
    ensures n <= q ==> n * mult <= q * mult
    ensures q < n ==> q * mult + mult <= n * mult
  {
    if n <= q {
      assert 0 <= (q - n) * mult;
    } else {
      assert 0 <= (n - q - 1) * mult;
    }
  }

  // ------------------------------------------------------------- exactness

  lemma {:induction false} TrimLeftSplit(s: string) returns (before: string)
    ensures AllSpaces(before) && s == before + TrimLeft(s)
    ensures TrimLeft(s) != [] ==> !IsSpace(TrimLeft(s)[0])
  {
    if s != [] && IsSpace(s[0]) {
      var b := TrimLeftSplit(s[1..]);
      before := [s[0]] + b;
      assert s == [s[0]] + s[1..];
    } else {
      before := "";
    }
  }

  lemma {:induction false} TrimLeftIs(before: string, t: string)
    requires AllSpaces(before) && (t != [] ==> !IsSpace(t[0]))
    ensures TrimLeft(before + t) == t
  {
    if before == [] {
      assert before + t == t;
    } else {
      assert (before + t)[1..] == before[1..] + t;
      TrimLeftIs(before[1..], t);
    }
  }

  lemma {:induction false} TrimRightIs(t: string, after: string)
    requires AllSpaces(after) && (t != [] ==> !IsSpace(t[|t| - 1]))
    ensures TrimRight(t + after) == t
  {
    if after == [] {
      assert t + after == t;
    } else {
      assert (t + after)[..|t + after| - 1] == t + after[..|after| - 1];
      TrimRightIs(t, after[..|after| - 1]);
    }
  }

  lemma PlainChars(s: string)
    ensures forall i :: 0 <= i < |s| && (IsDigit(UpperChar(s[i])) || IsSpace(UpperChar(s[i])))
              ==> UpperChar(s[i]) == s[i]
    ensures AllDigits(s) || AllSpaces(s) ==> Upper(s) == s
  {
  }

  function Entry(i: nat): Suffix
    requires i <= |TABLE|
  {
    if i < |TABLE| then TABLE[i] else NO_SUFFIX
  }

  lemma EntryShape(i: nat)
    requires i <= |TABLE|
    ensures forall j :: 0 <= j < |Entry(i).text| ==> IsUpper(Entry(i).text[j])
    ensures i < |TABLE| ==> Entry(i).text != []
  {
  }

  function Head(i: nat): char {
    if i < 3 then 'K' else if i < 6 then 'M' else if i < 9 then 'G' else 'B'
  }

  function Length(i: nat): nat {
    if i == 0 || i == 3 || i == 6 then 3
    else if i == 1 || i == 4 || i == 7 then 2
    else if i == 10 then 0
    else 1
  }

  /** Three suffixes for each of K, M and G, the longest first, then B, then none. */
  lemma EntryText(i: nat)
    requires i <= 10
    ensures |TABLE| == 10 && |Entry(i).text| == Length(i) && (i < 10 ==> Entry(i).text[0] == Head(i))
    ensures forall k :: 0 < k < Length(i) ==> Entry(i).text[k] == 'I' || Entry(i).text[k] == 'B'
  {
  }

  /** No entry stands before a longer one that it ends. */
  lemma LongestFirst(i: nat, j: nat)
    requires j < i <= |TABLE|
    ensures !EndsWith(Entry(i).text, Entry(j).text)
  {
    EntryText(0);
    EntryText(i);
    EntryText(j);
    hide TABLE, Entry, EndsWith;
    var s, t := Entry(i).text, Entry(j).text;
    TooLong(s, t);
    HeadDiffers(s, t);
    if Length(j) <= Length(i) {
      Later(i, j);
      assert s[Length(i) - Length(j)] != Head(j);
    }
  }

  /** A shorter or equally long entry belongs to an earlier letter. */
  lemma Later(i: nat, j: nat)
    requires j < i <= 10 && Length(j) <= Length(i)
    ensures j < 9 && i < 10 && Head(i) != Head(j) && Head(j) != 'I' && Head(j) != 'B'
  {
  }

  lemma TooLong(s: string, t: string)
    ensures |s| < |t| ==> !EndsWith(s, t)
  {
  }

  lemma HeadDiffers(s: string, t: string)
    ensures 0 < |t| <= |s| && t[0] != s[|s| - |t|] ==> !EndsWith(s, t)
  {
    if 0 < |t| <= |s| {
      assert s[|s| - |t|..][0] == s[|s| - |t|];
    }
  }

  lemma NotEarlier(lead: string, i: nat, j: nat)
    requires lead != [] && !IsUpper(lead[|lead| - 1]) && j < i <= |TABLE|
    ensures !EndsWith(lead + Entry(i).text, Entry(j).text)
  {
    EntryShape(j);
    LongestFirst(i, j);
    var t, e := Entry(i).text, Entry(j).text;
    hide Entry, TABLE;
    var s := lead + t;
    assert |e| <= |t| ==> s[|s| - |e|..] == t[|t| - |e|..];
    assert |t| < |e| <= |s| ==> s[|s| - |e|..][|e| - |t| - 1] == lead[|lead| - 1];
  }

  lemma {:induction false} SuffixFrom(lead: string, i: nat, k: nat)
    requires lead != [] && !IsUpper(lead[|lead| - 1]) && k <= i <= |TABLE|
    ensures FindSuffix(lead + Entry(i).text, k) == Entry(i)
    decreases i - k
  {
    hide TABLE;
    var s := lead + Entry(i).text;
    assert s[|lead|..] == Entry(i).text;
    if k < i {
      NotEarlier(lead, i, k);
      SuffixFrom(lead, i, k + 1);
    }
  }

  /** The table order always picks the suffix that was written, even where a
      shorter one also ends the text. */
  lemma SuffixFound(lead: string, suf: Suffix)
    requires lead != [] && !IsUpper(lead[|lead| - 1]) && (suf in TABLE || suf == NO_SUFFIX)
    ensures FindSuffix(lead + suf.text, 0) == suf
  {
    hide TABLE, FindSuffix;
    var i: nat := if suf in TABLE then var i :| 0 <= i < |TABLE| && TABLE[i] == suf; i else |TABLE|;
    SuffixFrom(lead, i, 0);
  }

  lemma UpperSuffix(t: string, m: nat)
    requires m <= |t|
    ensures Upper(t[m..]) == Upper(t)[m..]
  {
    hide UpperChar;
    var (u, v) := (Upper(t)[m..], Upper(t[m..]));
    forall i | 0 <= i < |t| - m ensures v[i] == u[i] {
      assert v[i] == UpperChar(t[m..][i]) && u[i] == UpperChar(t[m + i]);
    }
  }

  /** Digits and spaces of the upper-cased text stand in the text itself. */
  lemma Uncased(t: string, m: nat, num: string)
    requires m <= |t| && num == TrimRight(Upper(t)[..m]) && AllDigits(num)
    ensures |num| <= m && t[..|num|] == num && AllSpaces(t[|num|..m]) && Upper(t[m..]) == Upper(t)[m..]
  {
    hide TrimRight, UpperChar, IsDigit, IsSpace;
    var u, k := Upper(t), |num|;
    UpperSuffix(t, m);
    PlainChars(t);
    forall i | 0 <= i < k ensures t[i] == num[i] {
      assert u[..m][i] == num[i];
    }
    forall i | k <= i < m ensures IsSpace(t[i]) {
      assert u[..m][k..][i - k] == u[i];
    }
  }

  lemma Denoted(s: string, n: int, before: string, num: string, gap: string, text: string, after: string,
                suf: Suffix)
    requires Reads(s, n, before, num, gap, text, after, suf)
    ensures Denotes(s, n)
  {
  }

  /** Whatever the parser accepts is written in the text. */
  lemma AcceptedReads(s: string)
    requires SizeOf(s) != None
    ensures Denotes(s, SizeOf(s).value)
  {
    hide TABLE, FindSuffix, Value, TrimLeft, TrimRight, AllSpaces, AllDigits, Upper, UpperChar;
    var before := TrimLeftSplit(s);
    var l := TrimLeft(s);
    var t := TrimRight(l);
    var u := Upper(t);
    var suf := FindSuffix(u, 0);
    var m := |u| - |suf.text|;
    var num := TrimRight(u[..m]);
    Uncased(t, m, num);
    hide Trimmed, EndsWith;
    assert u[m..] == suf.text;
    var gap, text, after := t[|num|..m], t[m..], l[|t|..];
    assert num + gap + text == t;
    assert s == before + t + after;
    Denoted(s, SizeOf(s).value, before, num, gap, text, after, suf);
  }

  /** A text with a suffix, or with nothing after its digits. */
  lemma TightAccepted(before: string, num: string, gap: string, text: string, after: string, suf: Suffix)
    requires Layout(before, num, gap, text, after)
    requires (suf in TABLE || suf == NO_SUFFIX) && Upper(text) == suf.text && (text == [] ==> gap == [])
    ensures var s := before + (num + gap + text) + after;
      Trimmed(s) == Some(num + gap + suf.text)
  {
    var core := num + gap + text;
    assert core != [] && core[0] == num[0];
    assert !IsSpace(core[|core| - 1]) by {
      hide TABLE;
      if text != [] {
        assert core[|core| - 1] == text[|text| - 1];
        SuffixLetters(text, suf);
      } else {
        assert core == num;
      }
    }
    assert before + core + after == before + (core + after);
    assert (core + after)[0] == num[0];
    TrimLeftIs(before, core + after);
    TrimRightIs(core, after);
    PlainChars(num);
    PlainChars(gap);
    hide TrimLeft, TrimRight, AllSpaces, AllDigits, UpperChar, TABLE, IsSpace;
    assert Upper(core) == Upper(num) + Upper(gap) + Upper(text);
  }

  lemma SuffixLetters(text: string, suf: Suffix)
    requires text != [] && (suf in TABLE || suf == NO_SUFFIX) && Upper(text) == suf.text
    ensures !IsSpace(text[|text| - 1])
  {
  }

  lemma TightSize(before: string, num: string, gap: string, text: string, after: string, suf: Suffix)
    requires Layout(before, num, gap, text, after)
    requires (suf in TABLE || suf == NO_SUFFIX) && Upper(text) == suf.text && (text == [] ==> gap == [])
    ensures SizeOf(before + (num + gap + text) + after) == Fits(Value(num) * suf.mult)
  {
    hide TABLE, FindSuffix, Value, TrimRight, Trimmed, UpperChar;
    TightAccepted(before, num, gap, text, after, suf);
    var lead := num + gap;
    assert !IsUpper(lead[|lead| - 1]) by {
      assert lead[|lead| - 1] == if gap == [] then num[|num| - 1] else gap[|gap| - 1];
    }
    SuffixFound(lead, suf);
    assert num + gap + suf.text == lead + suf.text;
    assert (lead + suf.text)[..|lead|] == lead;
    TrimRightIs(num, gap);
  }

  /** The text is read as its digits times the suffix's unit, or refused as too large. */
  lemma WrittenSize(before: string, num: string, gap: string, text: string, after: string, suf: Suffix)
    requires Layout(before, num, gap, text, after)
    requires (suf in TABLE || suf == NO_SUFFIX) && Upper(text) == suf.text
    ensures SizeOf(before + (num + gap + text) + after) == Fits(Value(num) * suf.mult)
  {
    hide SizeOf, TABLE, Value;
    if text == [] {
      assert before + (num + gap + text) + after == before + (num + "" + "") + (gap + after);
      assert num + "" + "" == num && num + gap + text == num + gap;
      assert Upper("") == Upper(text);
      TightSize(before, num, "", "", gap + after, suf);
    } else {
      TightSize(before, num, gap, text, after, suf);
    }
  }

  /** Whatever reads as a size is accepted, at the value it reads as. */
  lemma ReadsAccepted(s: string, n: int)
    requires Denotes(s, n)
    ensures SizeOf(s) == Some(n)
  {
    hide SizeOf, TABLE, Value, Layout;
    var before, num, gap, text, after, suf :| Reads(s, n, before, num, gap, text, after, suf);
    WrittenSize(before, num, gap, text, after, suf);
  }

  function Fits(n: int): Option<int> {
    if n <= INT64_MAX then Some(n) else None
  }

  /** The units: powers of 1024 for K, M and G, with or without B or IB, in any case;
      bytes for B and for nothing. The only bound is the signed 64-bit one. */
  lemma SizeMeaning(before: string, num: string, gap: string, text: string, after: string)
    requires AllSpaces(before) && AllSpaces(gap) && AllSpaces(after)
    requires num != [] && AllDigits(num) && |num + gap + text| < 64
    ensures var (r, u, v) := (SizeOf(before + (num + gap + text) + after), Upper(text), Value(num));
      && (u == "" || u == "B" ==> r == if v <= 0x7fff_ffff_ffff_ffff then Some(v) else None)
      && (u == "K" || u == "KB" || u == "KIB" ==>
            r == if v * 1024 <= 0x7fff_ffff_ffff_ffff then Some(v * 1024) else None)
      && (u == "M" || u == "MB" || u == "MIB" ==>
            r == if v * 1048576 <= 0x7fff_ffff_ffff_ffff then Some(v * 1048576) else None)
      && (u == "G" || u == "GB" || u == "GIB" ==>
            r == if v * 1073741824 <= 0x7fff_ffff_ffff_ffff then Some(v * 1073741824) else None)
  {
    var u, v := Upper(text), Value(num);
    hide SizeOf, Value, TABLE, Upper, AllDigits, AllSpaces;
    if u == "" || u == "B" {
      UnitListed(u, 1);
      WrittenSize(before, num, gap, text, after, Suffix(u, 1));
    } else if u == "K" || u == "KB" || u == "KIB" {
      UnitListed(u, 1024);
      WrittenSize(before, num, gap, text, after, Suffix(u, 1024));
    } else if u == "M" || u == "MB" || u == "MIB" {
      UnitListed(u, 1048576);
      WrittenSize(before, num, gap, text, after, Suffix(u, 1048576));
    } else if u == "G" || u == "GB" || u == "GIB" {
      UnitListed(u, 1073741824);
      WrittenSize(before, num, gap, text, after, Suffix(u, 1073741824));
    }
  }

  predicate HasUnit(u: string, mult: nat) {
    || (mult == 1 && (u == "" || u == "B"))
    || (mult == 1024 && (u == "K" || u == "KB" || u == "KIB"))
    || (mult == 1048576 && (u == "M" || u == "MB" || u == "MIB"))
    || (mult == 1073741824 && (u == "G" || u == "GB" || u == "GIB"))
  }

  lemma UnitListed(u: string, mult: nat)
    requires HasUnit(u, mult)
    ensures Suffix(u, mult) in TABLE || Suffix(u, mult) == NO_SUFFIX
  {
    assert TABLE[0] in TABLE && TABLE[1] in TABLE && TABLE[2] in TABLE && TABLE[3] in TABLE && TABLE[4] in TABLE;
    assert TABLE[5] in TABLE && TABLE[6] in TABLE && TABLE[7] in TABLE && TABLE[8] in TABLE && TABLE[9] in TABLE;
  }

  lemma Sized(num: string, gap: string, text: string, u: string, mult: nat)
    requires AllSpaces(gap) && num != [] && AllDigits(num) && |num + gap + text| < 64
    requires Cased(text, u) && HasUnit(u, mult)
    ensures SizeOf(num + gap + text) == Fits(Value(num) * mult)
  {
    hide SizeOf, Value, TABLE;
    assert Upper(text) == u;
    UnitListed(u, mult);
    assert "" + (num + gap + text) + "" == num + gap + text;
    WrittenSize("", num, gap, text, "", Suffix(u, mult));
  }

  predicate Cased(s: string, u: string) {
    |s| == |u| && forall i :: 0 <= i < |s| ==> u[i] == UpperChar(s[i])
  }

  /** The default payload of the harness; a gap; lower case. */
  lemma SizeExamples()
    ensures SizeOf("16MB") == Some(16777216)
    ensures SizeOf("2 GiB") == Some(2147483648)
    ensures SizeOf("5k") == Some(5120)
  {
    hide SizeOf;
    DefaultPayload();
    WithGap();
    LowerCase();
  }

  lemma DefaultPayload()
    ensures SizeOf("16MB") == Some(16777216)
  {
    hide SizeOf;
    assert Value("16") == 16 by {
      ShortValues('1', '6');
      assert "16" == ['1', '6'];
    }
    assert AllSpaces("") && AllDigits("16");
    assert Cased("MB", "MB") && HasUnit("MB", 1048576);
    assert "16" + "" + "MB" == "16MB";
    hide Value, DigitValue, AllDigits, AllSpaces, IsSpace, Cased, HasUnit, UpperChar;
    Sized("16", "", "MB", "MB", 1048576);
  }

  lemma WithGap()
    ensures SizeOf("2 GiB") == Some(2147483648)
  {
    hide SizeOf;
    assert Value("2") == 2 by {
      ShortValues('2', '2');
      assert "2" == ['2'];
    }
    assert AllSpaces(" ") && AllDigits("2");
    assert Cased("GiB", "GIB") && HasUnit("GIB", 1073741824);
    assert "2" + " " + "GiB" == "2 GiB";
    hide Value, DigitValue, AllDigits, AllSpaces, IsSpace, Cased, HasUnit, UpperChar;
    Sized("2", " ", "GiB", "GIB", 1073741824);
  }

  lemma LowerCase()
    ensures SizeOf("5k") == Some(5120)
  {
    hide SizeOf;
    assert Value("5") == 5 by {
      ShortValues('5', '5');
      assert "5" == ['5'];
    }
    assert AllSpaces("") && AllDigits("5");
    assert Cased("k", "K") && HasUnit("K", 1024);
    assert "5" + "" + "k" == "5k";
    hide Value, DigitValue, AllDigits, AllSpaces, IsSpace, Cased, HasUnit, UpperChar;
    Sized("5", "", "k", "K", 1024);
  }

  /** The parser accepts exactly the strings that read as a size, and returns
      the size they read as. */
  lemma SizeExactly(s: string)
    ensures forall n :: SizeOf(s) == Some(n) <==> Denotes(s, n)
  {
    hide SizeOf, Denotes;
    forall n ensures SizeOf(s) == Some(n) <==> Denotes(s, n) {
      if SizeOf(s) == Some(n) {
        AcceptedReads(s);
      }
      if Denotes(s, n) {
        ReadsAccepted(s, n);
      }
    }
  }
}
