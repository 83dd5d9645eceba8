/**
 * Decoding of a UTF-8 byte stream, one character at a time, forwards and
 * backwards.  The encoding is the one of section 3 of RFC 3629; the
 * well-formedness test below is the byte-range syntax of its section 4.
 *
 * The decoder assembles a code point with masks, shifts and `|=`.  Here a
 * mask `& (2^k - 1)` is `% 2^k`, a shift `<< k` is `* 2^k`, and each `|=`
 * is an addition: the assembled bit fields never overlap, so OR and `+`
 * agree on every input.
 */
module Utf8Reader {

  type byte = x: int | 0 <= x < 256

  /** A Unicode scalar value (Unicode Standard section 3.9, D76). */
  predicate IsScalar(c: int)
  {
    0 <= c <= 0x10FFFF && !(0xD800 <= c <= 0xDFFF)
  }

  predicate AllScalar(cs: seq<int>)
  {
    forall i :: 0 <= i < |cs| ==> IsScalar(cs[i])
  }

  /** The number of leading one bits of a byte. */
  function LeadingOnes(b: byte): nat
  {
    if b < 0x80 then 0
    else if b < 0xC0 then 1
    else if b < 0xE0 then 2
    else if b < 0xF0 then 3
    else if b < 0xF8 then 4
    else if b < 0xFC then 5
    else if b < 0xFE then 6
    else if b < 0xFF then 7
    else 8
  }

  /** The length of the sequence a lead byte announces: 1 for ASCII, else its leading ones. */
  function SequenceLength(b: byte): nat
  {
    if LeadingOnes(b) == 0 then 1 else LeadingOnes(b)
  }

  /**
   * The encoding table of section 3 of RFC 3629: the code point's bits are
   * cut into 6-bit groups, the last ones in continuation bytes `10xxxxxx`.
   */
  function Encode(c: int): (r: seq<byte>)
    requires 0 <= c <= 0x10FFFF
    ensures 1 <= |r| <= 4
    ensures |r| == SequenceLength(r[0])
    ensures forall i :: 1 <= i < |r| ==> LeadingOnes(r[i]) == 1
  {
    if c < 0x80 then [c]
    else if c < 0x800 then [0xC0 + c / 0x40, 0x80 + c % 0x40]
    else if c < 0x10000 then [0xE0 + c / 0x40 / 0x40, 0x80 + c / 0x40 % 0x40, 0x80 + c % 0x40]
    else [0xF0 + c / 0x40 / 0x40 / 0x40, 0x80 + c / 0x40 / 0x40 % 0x40, 0x80 + c / 0x40 % 0x40, 0x80 + c % 0x40]
  }

  predicate IsTail(b: byte) { 0x80 <= b <= 0xBF }

  /** One well-formed character: the syntax UTF8-char of section 4 of RFC 3629. */
  predicate WellFormedChar(s: seq<byte>)
  {
    (|s| == 1 && s[0] <= 0x7F)
    || (|s| == 2 && 0xC2 <= s[0] <= 0xDF && IsTail(s[1]))
    || (|s| == 3 && IsTail(s[2]) &&
        ((s[0] == 0xE0 && 0xA0 <= s[1] <= 0xBF)
         || (0xE1 <= s[0] <= 0xEC && IsTail(s[1]))
         || (s[0] == 0xED && 0x80 <= s[1] <= 0x9F)
         || (0xEE <= s[0] <= 0xEF && IsTail(s[1]))))
    || (|s| == 4 && IsTail(s[2]) && IsTail(s[3]) &&
        ((s[0] == 0xF0 && 0x90 <= s[1] <= 0xBF)
         || (0xF1 <= s[0] <= 0xF3 && IsTail(s[1]))
         || (s[0] == 0xF4 && 0x80 <= s[1] <= 0x8F)))
  }

  /** The code point the decoder assembles from a sequence of 1 to 4 bytes. */
  function CodeOf(s: seq<byte>): nat
    requires 1 <= |s| <= 4
  {
    if |s| == 1 then s[0]
    else if |s| == 2 then (s[0] as int % 0x20) * 0x40 + s[1] as int % 0x40
    else if |s| == 3 then (s[0] as int % 0x10) * 0x1000 + (s[1] as int % 0x40) * 0x40 + s[2] as int % 0x40
    else (s[0] as int % 0x08) * 0x40000 + (s[1] as int % 0x40) * 0x1000 + (s[2] as int % 0x40) * 0x40
         + s[3] as int % 0x40
  }

  /** The low six bits of a continuation byte are the byte minus its `10` marker. */
  lemma TailBits(b: byte)
    requires IsTail(b)
    ensures b as int % 0x40 == b - 0x80
  {
  }

  /** The encoding of every scalar value is well formed. */
  lemma EncodeIsWellFormed(c: int)
    requires IsScalar(c)
    ensures WellFormedChar(Encode(c))
  {
  }

  lemma CodeOfEncode2(c: int)
    requires 0x80 <= c < 0x800
    ensures CodeOf(Encode(c)) == c
  {
    var t1 := c / 0x40;
    assert (0xC0 + t1) % 0x20 == t1;
  }

  lemma CodeOfEncode3(c: int)
    requires 0x800 <= c < 0x10000
    ensures CodeOf(Encode(c)) == c
  {
    var t1, d0 := c / 0x40, c % 0x40;
    var t2, d1 := t1 / 0x40, t1 % 0x40;
    assert c == t2 * 0x1000 + d1 * 0x40 + d0;
    assert (0xE0 + t2) % 0x10 == t2;
    assert (0x80 + d1) % 0x40 == d1;
    assert (0x80 + d0) % 0x40 == d0;
  }

  lemma CodeOfEncode4(c: int)
    requires 0x10000 <= c <= 0x10FFFF
    ensures CodeOf(Encode(c)) == c
  {
    var t1, d0 := c / 0x40, c % 0x40;
    var t2, d1 := t1 / 0x40, t1 % 0x40;
    var t3, d2 := t2 / 0x40, t2 % 0x40;
    assert c == t3 * 0x40000 + d2 * 0x1000 + d1 * 0x40 + d0;
    assert (0xF0 + t3) % 0x08 == t3;
    assert (0x80 + d2) % 0x40 == d2;
    assert (0x80 + d1) % 0x40 == d1;
    assert (0x80 + d0) % 0x40 == d0;
  }

  /** Decoding an encoding gives the code point back. */
  lemma CodeOfEncode(c: int)
    requires 0 <= c <= 0x10FFFF
    ensures CodeOf(Encode(c)) == c
  {
    if c < 0x80 {
    } else if c < 0x800 {
      CodeOfEncode2(c);
    } else if c < 0x10000 {
      CodeOfEncode3(c);
    } else {
      CodeOfEncode4(c);
    }
  }

  lemma EncodeCodeOf2(s: seq<byte>)
    requires |s| == 2 && WellFormedChar(s)
    ensures IsScalar(CodeOf(s)) && Encode(CodeOf(s)) == s
  {
    var c := CodeOf(s);
    TailBits(s[1]);
    assert s[0] as int % 0x20 == s[0] as int - 0xC0;
    assert c == (s[0] as int - 0xC0) * 0x40 + (s[1] as int - 0x80);
    assert c / 0x40 == s[0] as int - 0xC0 && c % 0x40 == s[1] as int - 0x80;
  }

  /** Cutting off the low six bits of `q * 64 + r` gives `q` and `r` back. */
  lemma Split64(q: nat, r: nat)
    requires r < 0x40
    ensures (q * 0x40 + r) / 0x40 == q && (q * 0x40 + r) % 0x40 == r
  {
  }

  /** A three-byte code point, given by its 4-bit lead and two 6-bit groups, encodes to those groups. */
  lemma EncodeOf3(a: nat, b: nat, d: nat)
    requires a < 0x10 && b < 0x40 && d < 0x40 && 0x800 <= (a * 0x40 + b) * 0x40 + d
    ensures Encode((a * 0x40 + b) * 0x40 + d) == [0xE0 + a, 0x80 + b, 0x80 + d]
  {
    Split64(a * 0x40 + b, d);
    Split64(a, b);
  }

  /** A four-byte code point, given by its 3-bit lead and three 6-bit groups, encodes to those groups. */
  lemma EncodeOf4(a: nat, b: nat, d: nat, e: nat)
    requires a < 0x08 && b < 0x40 && d < 0x40 && e < 0x40
    requires 0x10000 <= ((a * 0x40 + b) * 0x40 + d) * 0x40 + e <= 0x10FFFF
    ensures Encode(((a * 0x40 + b) * 0x40 + d) * 0x40 + e) == [0xF0 + a, 0x80 + b, 0x80 + d, 0x80 + e]
  {
    Split64((a * 0x40 + b) * 0x40 + d, e);
    Split64(a * 0x40 + b, d);
    Split64(a, b);
  }

  lemma EncodeCodeOf3(s: seq<byte>)
    requires |s| == 3 && WellFormedChar(s)
    ensures IsScalar(CodeOf(s)) && Encode(CodeOf(s)) == s
  {
    var c := CodeOf(s);
    var a, b, d := s[0] as int - 0xE0, s[1] as int - 0x80, s[2] as int - 0x80;
    assert c == (a * 0x40 + b) * 0x40 + d by {
      TailBits(s[1]);
      TailBits(s[2]);
      assert s[0] as int % 0x10 == a;
    }
    assert IsScalar(c) && 0x800 <= c by {
      assert a == 0 ==> b >= 0x20;
      assert a == 0xD ==> b < 0x20;
    }
    EncodeOf3(a, b, d);
    assert s == [0xE0 + a, 0x80 + b, 0x80 + d];
  }

  lemma EncodeCodeOf4(s: seq<byte>)
    requires |s| == 4 && WellFormedChar(s)
    ensures IsScalar(CodeOf(s)) && Encode(CodeOf(s)) == s
  {
    var c := CodeOf(s);
    var a, b, d, e := s[0] as int - 0xF0, s[1] as int - 0x80, s[2] as int - 0x80, s[3] as int - 0x80;
    assert c == ((a * 0x40 + b) * 0x40 + d) * 0x40 + e by {
      TailBits(s[1]);
      TailBits(s[2]);
      TailBits(s[3]);
      assert s[0] as int % 0x08 == a;
    }
    assert IsScalar(c) && 0x10000 <= c;
    EncodeOf4(a, b, d, e);
    assert s == [0xF0 + a, 0x80 + b, 0x80 + d, 0x80 + e];
  }

  /** Every well-formed character is the encoding of the scalar value it decodes to. */
  lemma EncodeCodeOf(s: seq<byte>)
    requires WellFormedChar(s)
    ensures IsScalar(CodeOf(s)) && Encode(CodeOf(s)) == s
  {
    if |s| == 2 {
      EncodeCodeOf2(s);
    } else if |s| == 3 {
      EncodeCodeOf3(s);
    } else if |s| == 4 {
      EncodeCodeOf4(s);
    }
  }

  /** Different scalar values have different encodings. */
  lemma EncodeInjective(a: int, b: int)
    requires 0 <= a <= 0x10FFFF && 0 <= b <= 0x10FFFF
    requires Encode(a) == Encode(b)
    ensures a == b
  {
    CodeOfEncode(a);
    CodeOfEncode(b);
  }

  /**
   * Reads the character whose lead byte is at `position`.  The lead byte
   * must announce 1 to 4 bytes (anything else is unreachable in the
   * decoder) and those bytes must exist.
   */
  method ReadChar(data: seq<byte>, position: nat) returns (code: nat, byteLength: nat)
    requires position < |data|
    requires LeadingOnes(data[position]) in {0, 2, 3, 4}
    requires position + SequenceLength(data[position]) <= |data|
    ensures byteLength == SequenceLength(data[position])
    ensures data[position] < 0x80 ==> code == data[position] && byteLength == 1
    ensures WellFormedChar(data[position..position + byteLength]) ==>
              IsScalar(code) && Encode(code) == data[position..position + byteLength]
    ensures forall c :: IsScalar(c) && position + |Encode(c)| <= |data|
                        && data[position..position + |Encode(c)|] == Encode(c)
                        ==> code == c && byteLength == |Encode(c)|
  {
    code := 0;
    var firstByte := data[position];
    var ones := LeadingOnes(firstByte);
    if ones == 0 {
      code := code + firstByte;
      byteLength := 1;
    } else if ones == 2 {
      code := code + (firstByte as int % 0x20) * 0x40;
      code := code + data[position + 1] as int % 0x40;
      byteLength := 2;
    } else if ones == 3 {
      code := code + (firstByte as int % 0x10) * 0x1000;
      code := code + (data[position + 1] as int % 0x40) * 0x40;
      code := code + data[position + 2] as int % 0x40;
      byteLength := 3;
    } else {
      code := code + (firstByte as int % 0x08) * 0x40000;
      code := code + (data[position + 1] as int % 0x40) * 0x1000;
      code := code + (data[position + 2] as int % 0x40) * 0x40;
      code := code + data[position + 3] as int % 0x40;
      byteLength := 4;
    }
    var read := data[position..position + byteLength];
    assert code == CodeOf(read);
    if WellFormedChar(read) {
      EncodeCodeOf(read);
    }
    forall c | IsScalar(c) && position + |Encode(c)| <= |data|
               && data[position..position + |Encode(c)|] == Encode(c)
      ensures code == c && byteLength == |Encode(c)|
    {
      assert Encode(c)[0] == data[position];
      CodeOfEncode(c);
    }
  }

  /** The bytes of a sequence of characters, one encoding after the other. */
  function EncodeAll(cs: seq<int>): seq<byte>
    requires AllScalar(cs)
  {
    if cs == [] then [] else EncodeAll(cs[..|cs| - 1]) + Encode(cs[|cs| - 1])
  }

  /**
   * Reads the character that ends just before `position`, by stepping back
   * over continuation bytes to its lead byte.  The bytes before `position`
   * must be a well-formed stream of at least one character; `before` names
   * those characters.
   */
  method ReadPreviousChar(data: seq<byte>, position: nat, ghost before: seq<int>) returns (code: nat, byteLength: nat)
    requires position <= |data| && |before| > 0 && AllScalar(before)
    requires data[..position] == EncodeAll(before)
    ensures code == before[|before| - 1]
    ensures byteLength == |Encode(code)|
    ensures data[position - byteLength..position] == Encode(code)
  {
    ghost var last := before[|before| - 1];
    ghost var e := Encode(last);
    ghost var start := position - |e|;
    assert EncodeAll(before) == EncodeAll(before[..|before| - 1]) + e;
    assert data[start..position] == e by {
      assert data[start..position] == data[..position][start..];
    }
    var p := position - 1;
    while LeadingOnes(data[p]) == 1
      invariant start <= p < position
      decreases p
    {
      assert data[p] == e[p - start];
      p := p - 1;
    }
    assert data[p] == e[p - start];
    assert p == start;
    code, byteLength := ReadChar(data, p);
    assert data[p..p + |e|] == e;
  }
}
