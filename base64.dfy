/**
 * Base64 as in section 4 of RFC 4648 (alphabet A-Z a-z 0-9 + /, '=' padding):
 * Convert.ToBase64String and Convert.FromBase64String.
 */
module Base64 {
  import opened Wrappers
  import opened Numeric

  /** The character for a 6-bit value. */
  function Alphabet(i: nat): (c: char)
    requires i < 64
  {
    if i < 26 then ('A' as int + i) as char
    else if i < 52 then ('a' as int + (i - 26)) as char
    else if i < 62 then ('0' as int + (i - 52)) as char
    else if i == 62 then '+'
    else '/'
  }

  /** The 6-bit value of an alphabet character; None for any other character, '=' included. */
  function SextetOf(c: char): (r: Option<nat>)
    ensures r.Some? ==> r.value < 64 && Alphabet(r.value) == c
  {
    if 'A' <= c <= 'Z' then Some(c as int - 'A' as int)
    else if 'a' <= c <= 'z' then Some(c as int - 'a' as int + 26)
    else if '0' <= c <= '9' then Some(c as int - '0' as int + 52)
    else if c == '+' then Some(62)
    else if c == '/' then Some(63)
    else None
  }

  lemma SextetOfAlphabet(i: nat)
    requires i < 64
    ensures SextetOf(Alphabet(i)) == Some(i)
  {
  }

  predicate IsAlphabetChar(c: char)
  {
    SextetOf(c).Some?
  }

  /** The characters an encoder may emit. */
  predicate IsEncodedChar(c: char)
  {
    IsAlphabetChar(c) || c == '='
  }

  function Encode3(b0: byte, b1: byte, b2: byte): string
  {
    [Alphabet(b0 / 4), Alphabet((b0 % 4) * 16 + b1 / 16), Alphabet((b1 % 16) * 4 + b2 / 64), Alphabet(b2 % 64)]
  }

  function Encode2(b0: byte, b1: byte): string
  {
    [Alphabet(b0 / 4), Alphabet((b0 % 4) * 16 + b1 / 16), Alphabet((b1 % 16) * 4), '=']
  }

  function Encode1(b0: byte): string
  {
    [Alphabet(b0 / 4), Alphabet((b0 % 4) * 16), '=', '=']
  }

  /** Convert.ToBase64String: four characters per three bytes, the last group padded with '='. */
  function Encode(b: seq<byte>): (r: string)
    ensures |r| % 4 == 0
    ensures |b| == 0 <==> r == []
    decreases |b|
  {
    if |b| == 0 then []
    else if |b| == 1 then Encode1(b[0])
    else if |b| == 2 then Encode2(b[0], b[1])
    else Encode3(b[0], b[1], b[2]) + Encode(b[3..])
  }

  /** Four characters for every three bytes or part of three bytes. */
  lemma {:induction false} EncodeLength(b: seq<byte>)
    ensures |Encode(b)| == 4 * ((|b| + 2) / 3)
    decreases |b|
  {
    if |b| >= 3 {
      EncodeLength(b[3..]);
      assert (|b| + 2) / 3 == (|b[3..]| + 2) / 3 + 1;
    }
  }

  /** The characters FromBase64String skips wherever they appear. */
  predicate IsSkippedWhite(c: char)
  {
    c == ' ' || c == '\t' || c == '\r' || c == '\n'
  }

  function RemoveWhite(s: string): (r: string)
    ensures |r| <= |s|
  {
    if s == [] then []
    else if IsSkippedWhite(s[0]) then RemoveWhite(s[1..])
    else [s[0]] + RemoveWhite(s[1..])
  }

  /** One group of four characters. Padding is accepted only in the last group; the bits a padded
      group leaves unused are ignored. */
  function DecodeQuad(q: string, last: bool): Option<seq<byte>>
    requires |q| == 4
  {
    var v0, v1, v2, v3 := SextetOf(q[0]), SextetOf(q[1]), SextetOf(q[2]), SextetOf(q[3]);
    if v0.None? || v1.None? then None
    else if last && q[2] == '=' && q[3] == '=' then
      Some([v0.value * 4 + v1.value / 16])
    else if v2.None? then None
    else if last && q[3] == '=' then
      Some([v0.value * 4 + v1.value / 16, (v1.value % 16) * 16 + v2.value / 4])
    else if v3.None? then None
    else
      Some([v0.value * 4 + v1.value / 16, (v1.value % 16) * 16 + v2.value / 4, (v2.value % 4) * 64 + v3.value])
  }

  function DecodeQuads(t: string): Option<seq<byte>>
    requires |t| % 4 == 0
    decreases |t|
  {
    if t == [] then Some([])
    else
      var q := DecodeQuad(t[..4], |t| == 4);
      var rest := DecodeQuads(t[4..]);
      if q.None? || rest.None? then None else Some(q.value + rest.value)
  }

  /** Convert.FromBase64String: None where it throws a FormatException. */
  function Decode(s: string): Option<seq<byte>>
  {
    var t := RemoveWhite(s);
    if |t| % 4 != 0 then None else DecodeQuads(t)
  }

  lemma Quad3(b0: byte, b1: byte, b2: byte, last: bool)
    ensures DecodeQuad(Encode3(b0, b1, b2), last) == Some([b0, b1, b2])
  {
    var q := Encode3(b0, b1, b2);
    var v0, v1, v2, v3 := b0 / 4, (b0 % 4) * 16 + b1 / 16, (b1 % 16) * 4 + b2 / 64, b2 % 64;
    SextetOfAlphabet(v0);
    SextetOfAlphabet(v1);
    SextetOfAlphabet(v2);
    SextetOfAlphabet(v3);
    assert v1 / 16 == b0 % 4 && v1 % 16 == b1 / 16;
    assert v2 / 4 == b1 % 16 && v2 % 4 == b2 / 64;
  }

  lemma Quad2(b0: byte, b1: byte)
    ensures DecodeQuad(Encode2(b0, b1), true) == Some([b0, b1])
  {
    var v0, v1, v2 := b0 / 4, (b0 % 4) * 16 + b1 / 16, (b1 % 16) * 4;
    SextetOfAlphabet(v0);
    SextetOfAlphabet(v1);
    SextetOfAlphabet(v2);
    assert v1 / 16 == b0 % 4 && v1 % 16 == b1 / 16;
    assert v2 / 4 == b1 % 16;
  }

  lemma Quad1(b0: byte)
    ensures DecodeQuad(Encode1(b0), true) == Some([b0])
  {
    var v0, v1 := b0 / 4, (b0 % 4) * 16;
    SextetOfAlphabet(v0);
    SextetOfAlphabet(v1);
    assert v1 / 16 == b0 % 4;
  }

  lemma {:induction false} NoWhiteInEncoding(s: string)
    requires forall i :: 0 <= i < |s| ==> IsEncodedChar(s[i])
    ensures RemoveWhite(s) == s
    decreases |s|
  {
    if s != [] {
      NoWhiteInEncoding(s[1..]);
    }
  }

  lemma {:induction false} EncodedChars(b: seq<byte>)
    ensures forall i :: 0 <= i < |Encode(b)| ==> IsEncodedChar(Encode(b)[i])
    decreases |b|
  {
    if |b| >= 3 {
      EncodedChars(b[3..]);
      var t := Encode(b);
      forall i | 0 <= i < |t|
        ensures IsEncodedChar(t[i])
      {
        if i >= 4 {
          assert t[i] == Encode(b[3..])[i - 4];
        }
      }
    }
  }

  lemma DecodeQuadsCons(q: string, rest: string, h: seq<byte>, r: seq<byte>)
    requires |q| == 4 && |rest| % 4 == 0
    requires DecodeQuad(q, rest == []) == Some(h)
    requires DecodeQuads(rest) == Some(r)
    ensures DecodeQuads(q + rest) == Some(h + r)
  {
    var t := q + rest;
    assert t[..4] == q && t[4..] == rest;
  }

  lemma EncodeCons(b: seq<byte>)
    requires |b| >= 3
    ensures Encode(b) == Encode3(b[0], b[1], b[2]) + Encode(b[3..])
  {
  }

  lemma QuadsOne(b: seq<byte>)
    requires |b| == 1
    ensures DecodeQuads(Encode(b)) == Some(b)
  {
    Quad1(b[0]);
    DecodeQuadsCons(Encode1(b[0]), [], [b[0]], []);
    assert Encode(b) == Encode1(b[0]) + [];
    assert [b[0]] + [] == b;
  }

  lemma QuadsTwo(b: seq<byte>)
    requires |b| == 2
    ensures DecodeQuads(Encode(b)) == Some(b)
  {
    Quad2(b[0], b[1]);
    DecodeQuadsCons(Encode2(b[0], b[1]), [], [b[0], b[1]], []);
    assert Encode(b) == Encode2(b[0], b[1]) + [];
    assert [b[0], b[1]] + [] == b;
  }

  lemma QuadStep(b0: byte, b1: byte, b2: byte, rest: string, r: seq<byte>)
    requires |rest| % 4 == 0
    requires DecodeQuads(rest) == Some(r)
    ensures DecodeQuads(Encode3(b0, b1, b2) + rest) == Some([b0, b1, b2] + r)
  {
    Quad3(b0, b1, b2, rest == []);
    DecodeQuadsCons(Encode3(b0, b1, b2), rest, [b0, b1, b2], r);
  }

  lemma QuadsMore(b: seq<byte>, rest: string)
    requires |b| >= 3 && |rest| % 4 == 0
    requires DecodeQuads(rest) == Some(b[3..])
    ensures DecodeQuads(Encode3(b[0], b[1], b[2]) + rest) == Some(b)
  {
    QuadStep(b[0], b[1], b[2], rest, b[3..]);
    assert [b[0], b[1], b[2]] + b[3..] == b;
  }

  lemma {:induction false} QuadsRoundTrip(b: seq<byte>)
    ensures DecodeQuads(Encode(b)) == Some(b)
    decreases |b|
  {
    if |b| == 1 {
      QuadsOne(b);
    } else if |b| == 2 {
      QuadsTwo(b);
    } else if |b| >= 3 {
      QuadsRoundTrip(b[3..]);
      QuadsMore(b, Encode(b[3..]));
      EncodeCons(b);
    }
  }

  /** Decoding an encoding gives back the bytes. */
  lemma RoundTrip(b: seq<byte>)
    ensures Decode(Encode(b)) == Some(b)
  {
    EncodedChars(b);
    NoWhiteInEncoding(Encode(b));
    QuadsRoundTrip(b);
  }

  /** An encoding never holds the '.' that delimits the fields of a hash bundle, nor white space. */
  lemma EncodingAlphabet(b: seq<byte>, i: int)
    requires 0 <= i < |Encode(b)|
    ensures Encode(b)[i] != '.'
    ensures !IsSkippedWhite(Encode(b)[i])
    ensures !('\t' <= Encode(b)[i] <= '\r') && Encode(b)[i] as int < 0x80
  {
    EncodedChars(b);
  }
}
