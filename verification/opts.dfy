/**
  The opts query string: the builder that percent-encodes key=value pairs, and
  an independent reader of such strings (percent-decoding per section 2.1 of
  RFC 3986) that inverts it.
  */
module OptsQuery {
  import opened Base

  type Bytes = seq<Byte>
  type Pair = (Bytes, Bytes)

  const AMP: Byte := 0x26
  const EQ: Byte := 0x3D
  const PCT: Byte := 0x25
  const PLUS: Byte := 0x2B
  const SPACE: Byte := 0x20

  // ---------------------------------------------------------------- encoding

  /** Unreserved URL characters, and the comma. */
  predicate UrlSafe(b: Byte) {
    0x41 <= b <= 0x5A || 0x61 <= b <= 0x7A || 0x30 <= b <= 0x39
    || b == 0x2D || b == 0x2E || b == 0x5F || b == 0x7E || b == 0x2C
  }

  function HexDigit(n: nat): Byte
    requires n < 16
  {
    if n < 10 then 0x30 + n else 0x41 + (n - 10)
  }

  function EncodeByte(b: Byte): Bytes {
    if UrlSafe(b) then [b] else [PCT, HexDigit(b / 16), HexDigit(b % 16)]
  }

  function Encode(s: Bytes): Bytes {
    if s == [] then [] else Encode(s[..|s| - 1]) + EncodeByte(s[|s| - 1])
  }

  function Segment(p: Pair): Bytes {
    Encode(p.0) + [EQ] + Encode(p.1)
  }

  /** The query string of a list of pairs. */
  function Query(ps: seq<Pair>): Bytes {
    if ps == [] then []
    else if |ps| == 1 then Segment(ps[0])
    else Segment(ps[0]) + [AMP] + Query(ps[1..])
  }

  /** The builder. `pairs` is the list passed to Set so far. */
  class Opts {
    var query: Bytes
    ghost var pairs: seq<Pair>

    ghost predicate Valid()
      reads this
    {
      query == Query(pairs)
    }

    constructor ()
      ensures Valid() && pairs == [] && query == []
    {
      query, pairs := [], [];
    }

    /** encode_into, on the query. */
    method EncodeInto(s: Bytes)
      modifies this`query
      ensures query == old(query) + Encode(s)
    {
      for i := 0 to |s|
        invariant query == old(query) + Encode(s[..i])
      {
        assert s[..i + 1][..i] == s[..i];
        var b := s[i];
        if UrlSafe(b) {
          query := query + [b];
        } else {
          query := query + [PCT];
          query := query + [HexDigit(b / 16)];
          query := query + [HexDigit(b % 16)];
        }
        assert query == old(query) + (Encode(s[..i]) + EncodeByte(b));
      }
      assert s[..|s|] == s;
    }

    /** Appends one key=value pair. */
    method Set(key: Bytes, value: Bytes)
      requires Valid()
      modifies this
      ensures Valid() && pairs == old(pairs) + [(key, value)]
    {
      hide Encode, Query;
      QueryAppend(pairs, (key, value));
      if query != [] {
        query := query + [AMP];
      }
      EncodeInto(key);
      query := query + [EQ];
      EncodeInto(value);
      assert query == (if Query(pairs) == [] then [] else Query(pairs) + [AMP]) + Segment((key, value));
      pairs := pairs + [(key, value)];
    }
  }

  lemma SegmentNonEmpty(p: Pair)
    ensures Segment(p) != []
  {
  }

  lemma {:induction false} QueryAppend(ps: seq<Pair>, p: Pair)
    ensures Query(ps + [p]) == (if Query(ps) == [] then [] else Query(ps) + [AMP]) + Segment(p)
    ensures ps != [] ==> Query(ps) != []
  {
    hide Segment;
    if ps != [] { SegmentNonEmpty(ps[0]); }
    if ps == [] {
    } else if |ps| == 1 {
      assert (ps + [p])[1..] == [p];
      assert (ps + [p])[0] == ps[0];
    } else {
      QueryAppend(ps[1..], p);
      assert (ps + [p])[1..] == ps[1..] + [p];
      var (s, rest) := (Segment(ps[0]), Query(ps[1..]));
      assert s + [AMP] + (rest + [AMP] + Segment(p)) == s + [AMP] + rest + [AMP] + Segment(p);
    }
  }

  /** Letters, digits and "-._~," stand for themselves, and nothing else does. */
  lemma SafeCharacters(b: Byte)
    ensures Encode([b]) == [b] <==>
      var c := b as char;
      'a' <= c <= 'z' || 'A' <= c <= 'Z' || '0' <= c <= '9' || c == '-' || c == '.' || c == '_' || c == '~' || c == ','
  {
    ShortEncode(b, b);
    hide Encode;
  }

  /** The escapes, in upper-case hexadecimal. */
  lemma KnownEscapes()
    ensures Encode([0x2F, 0xFA]) == [0x25, 0x32, 0x46, 0x25, 0x46, 0x41]
  {
    ShortEncode(0x2F, 0xFA);
    hide Encode;
  }

  lemma ShortEncode(a: Byte, b: Byte)
    ensures Encode([a]) == EncodeByte(a) && Encode([a, b]) == EncodeByte(a) + EncodeByte(b)
  {
    hide EncodeByte;
    assert [a][..0] == [] && [a, b][..1] == [a];
  }

  /** "a=b&c=d%2F". */
  lemma KnownQuery()
    ensures Query([([0x61], [0x62]), ([0x63], [0x64, 0x2F])])
         == [0x61, 0x3D, 0x62, 0x26, 0x63, 0x3D, 0x64, 0x25, 0x32, 0x46]
  {
    PlainSegment(0x61, 0x62);
    EscapedSegment(0x63, 0x64, 0x2F);
    hide Segment;
    TwoPairs(([0x61], [0x62]), ([0x63], [0x64, 0x2F]));
  }

  lemma PlainSegment(a: Byte, b: Byte)
    requires UrlSafe(a) && UrlSafe(b)
    ensures Segment(([a], [b])) == [a, 0x3D, b]
  {
    ShortEncode(a, a);
    ShortEncode(b, b);
    hide Encode;
  }

  lemma EscapedSegment(a: Byte, b: Byte, c: Byte)
    requires UrlSafe(a) && UrlSafe(b) && !UrlSafe(c)
    ensures Segment(([a], [b, c])) == [a, 0x3D, b, 0x25, HexDigit(c / 16), HexDigit(c % 16)]
  {
    ShortEncode(a, a);
    ShortEncode(b, c);
    hide Encode, HexDigit;
  }

  lemma TwoPairs(p: Pair, q: Pair)
    ensures Query([p, q]) == Segment(p) + [0x26] + Segment(q)
  {
    hide Segment;
    assert [p, q][1..] == [q];
  }

  // ---------------------------------------------------------------- decoding

  function HexValue(b: Byte): Option<nat> {
    if 0x30 <= b <= 0x39 then Some(b - 0x30)
    else if 0x41 <= b <= 0x46 then Some(b - 0x41 + 10)
    else if 0x61 <= b <= 0x66 then Some(b - 0x61 + 10)
    else None
  }

  /** Percent-decoding; `plus` also maps '+' to a space. None for a bad escape. */
  function Decode(s: Bytes, plus: bool): Option<Bytes> {
    if s == [] then Some([])
    else if s[0] != PCT then
      var rest := Decode(s[1..], plus);
      if rest == None then None
      else Some([if plus && s[0] == PLUS then SPACE else s[0]] + rest.value)
    else if |s| < 3 || HexValue(s[1]) == None || HexValue(s[2]) == None then None
    else
      var rest := Decode(s[3..], plus);
      var b := 16 * HexValue(s[1]).value + HexValue(s[2]).value;
      if rest == None || 256 <= b then None else Some([b as Byte] + rest.value)
  }

  /** The position of the first `c`, or the length. */
  function Find(s: Bytes, c: Byte): (n: nat)
    ensures n <= |s| && (n < |s| ==> s[n] == c) && c !in s[..n]
  {
    if s == [] || s[0] == c then 0
    else
      var n := 1 + Find(s[1..], c);
      assert s[..n] == [s[0]] + s[1..][..n - 1];
      n
  }

  function DecodePair(s: Bytes, plus: bool): Option<Pair> {
    var n := Find(s, EQ);
    if n == |s| then None
    else
      var key, value := Decode(s[..n], plus), Decode(s[n + 1..], plus);
      if key == None || value == None then None else Some((key.value, value.value))
  }

  function DecodePairs(q: Bytes, plus: bool): Option<seq<Pair>>
    decreases |q|
  {
    var n := Find(q, AMP);
    var p := DecodePair(q[..n], plus);
    if p == None then None
    else if n == |q| then Some([p.value])
    else
      var rest := DecodePairs(q[n + 1..], plus);
      if rest == None then None else Some([p.value] + rest.value)
  }

  /** Reads a query string back: split at '&', split at the first '=', decode. */
  function DecodeQuery(q: Bytes, plus: bool): Option<seq<Pair>> {
    if q == [] then Some([]) else DecodePairs(q, plus)
  }

  // ------------------------------------------------------------- round trip

  /** An encoding holds nothing a reader treats specially except escapes. */
  lemma {:induction false} EncodedBytes(s: Bytes)
    ensures AMP !in Encode(s) && EQ !in Encode(s) && PLUS !in Encode(s)
  {
    if s == [] {
    } else {
      EncodedBytes(s[..|s| - 1]);
    }
  }

  lemma {:induction false} EncodeHead(s: Bytes)
    requires s != []
    ensures Encode(s) == EncodeByte(s[0]) + Encode(s[1..])
  {
    hide EncodeByte;
    if |s| == 1 {
      assert s == [s[0]];
    } else {
      var t := s[..|s| - 1];
      EncodeHead(t);
      assert t[1..] == s[1..][..|s[1..]| - 1];
      assert s[1..][|s[1..]| - 1] == s[|s| - 1];
    }
  }

  lemma HexRoundTrip(b: Byte)
    ensures HexValue(HexDigit(b / 16)) == Some(b / 16) && HexValue(HexDigit(b % 16)) == Some(b % 16)
  {
  }

  /** One encoded byte is read back as itself. */
  lemma DecodeByte(b: Byte, tail: Bytes, plus: bool)
    ensures Decode(EncodeByte(b) + tail, plus) ==
      var rest := Decode(tail, plus); if rest == None then None else Some([b] + rest.value)
  {
    HexRoundTrip(b);
    hide HexDigit, HexValue;
    var e := EncodeByte(b) + tail;
    if UrlSafe(b) {
      assert e[1..] == tail;
    } else {
      assert e[3..] == tail;
    }
  }

  lemma {:induction false} DecodeEncode(s: Bytes, plus: bool)
    ensures Decode(Encode(s), plus) == Some(s)
  {
    DecodeNothing(plus);
    hide EncodeByte, Encode, Decode;
    if s != [] {
      EncodeHead(s);
      DecodeEncode(s[1..], plus);
      DecodeByte(s[0], Encode(s[1..]), plus);
      assert s == [s[0]] + s[1..];
    }
  }

  lemma DecodeNothing(plus: bool)
    ensures Encode([]) == [] && Decode([], plus) == Some([])
  {
  }

  lemma {:induction false} FindIn(a: Bytes, c: Byte, b: Bytes)
    requires c !in a
    ensures Find(a + [c] + b, c) == |a|
    ensures Find(a, c) == |a|
  {
    if a == [] {
    } else {
      FindIn(a[1..], c, b);
      assert (a + [c] + b)[1..] == a[1..] + [c] + b;
    }
  }

  lemma DecodeSegment(p: Pair, plus: bool)
    ensures DecodePair(Segment(p), plus) == Some(p) && AMP !in Segment(p)
  {
    EncodedBytes(p.0);
    EncodedBytes(p.1);
    FindIn(Encode(p.0), EQ, Encode(p.1));
    DecodeEncode(p.0, plus);
    DecodeEncode(p.1, plus);
    var s := Segment(p);
    assert s[..|Encode(p.0)|] == Encode(p.0) && s[|Encode(p.0)| + 1..] == Encode(p.1);
  }

  /** Reading one segment off the front. */
  lemma DecodeFirst(p: Pair, rest: Bytes, plus: bool)
    ensures DecodePairs(Segment(p), plus) == Some([p])
    ensures DecodePairs(Segment(p) + [AMP] + rest, plus) ==
      if DecodePairs(rest, plus) == None then None else Some([p] + DecodePairs(rest, plus).value)
  {
    hide Segment, DecodePair, Find;
    DecodeSegment(p, plus);
    var s := Segment(p);
    FindIn(s, AMP, rest);
    var q := s + [AMP] + rest;
    assert q[..|s|] == s && q[|s| + 1..] == rest && s[..|s|] == s;
  }

  lemma {:induction false} PairsRoundTrip(ps: seq<Pair>, plus: bool)
    requires ps != []
    ensures DecodePairs(Query(ps), plus) == Some(ps) && Query(ps) != []
  {
    hide Segment, DecodePairs;
    SegmentNonEmpty(ps[0]);
    assert ps == [ps[0]] + ps[1..];
    if |ps| == 1 {
      assert ps == [ps[0]];
      DecodeFirst(ps[0], [], plus);
    } else {
      PairsRoundTrip(ps[1..], plus);
      DecodeFirst(ps[0], Query(ps[1..]), plus);
    }
  }

  /** Reading the query back gives exactly the pairs passed to Set, in order, for
      all byte strings, whether or not the reader takes '+' for a space. */
  lemma QueryRoundTrip(ps: seq<Pair>, plus: bool)
    ensures DecodeQuery(Query(ps), plus) == Some(ps)
  {
    if ps != [] {
      PairsRoundTrip(ps, plus);
    }
  }
}
