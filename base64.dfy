/**
 * Base 64 encoding as in section 4 of RFC 4648 (alphabet `A-Z a-z 0-9 + /`,
 * `=` padding), used to wrap upstream stream URLs inside proxy URLs.
 * The decoder is strict: the input length must be a multiple of 4, padding
 * may only close the last quantum, and every other character must belong to
 * the alphabet. Like Python's decoder it does not insist that the bits
 * discarded by padding are zero.
 */
module Base64 {
  import opened Wrappers

  newtype byte = x: int | 0 <= x < 256

  /** Section 4 of RFC 4648, table 1: the character for a 6-bit value. */
  function Char(v: int): (c: char)
    requires 0 <= v < 64
  {
    if v < 26 then ('A' as int + v) as char
    else if v < 52 then ('a' as int + (v - 26)) as char
    else if v < 62 then ('0' as int + (v - 52)) as char
    else if v == 62 then '+'
    else '/'
  }

  /** The 6-bit value of an alphabet character; `None` for anything else, `=` included. */
  function Value(c: char): (r: Option<int>)
    ensures r.Some? ==> 0 <= r.value < 64 && Char(r.value) == c
  {
    if 'A' <= c <= 'Z' then Some(c as int - 'A' as int)
    else if 'a' <= c <= 'z' then Some(c as int - 'a' as int + 26)
    else if '0' <= c <= '9' then Some(c as int - '0' as int + 52)
    else if c == '+' then Some(62)
    else if c == '/' then Some(63)
    else None
  }

  /** The alphabet is a bijection: every 6-bit value reads back from its character. */
  lemma ValueOfChar(v: int)
    requires 0 <= v < 64
    ensures Value(Char(v)) == Some(v)
  {
  }

  /** The characters an encoder may emit. */
  predicate InAlphabet(c: char) {
    Value(c).Some? || c == '='
  }

  /** Decodes one quantum of four characters; `=` may appear only as trailing padding. */
  function DecodeQuantum(q: string): (r: Option<seq<byte>>)
    requires |q| == 4
    ensures r.Some? ==> 1 <= |r.value| <= 3
    ensures r.Some? && |r.value| < 3 ==> q[3] == '='
  {
    var a, b, c, d := Value(q[0]), Value(q[1]), Value(q[2]), Value(q[3]);
    if a.None? || b.None? then None
    else if q[2] == '=' && q[3] == '=' then
      Some([(a.value * 4 + b.value / 16) as byte])
    else if c.None? then None
    else if q[3] == '=' then
      Some([(a.value * 4 + b.value / 16) as byte, (b.value % 16 * 16 + c.value / 4) as byte])
    else if d.None? then None
    else
      Some([(a.value * 4 + b.value / 16) as byte, (b.value % 16 * 16 + c.value / 4) as byte,
            (c.value % 4 * 64 + d.value) as byte])
  }

  /** Decodes a run of whole quanta; only the last one may be padded. */
  function DecodeQuanta(s: string): (r: Option<seq<byte>>)
    requires |s| % 4 == 0
    decreases |s|
  {
    if s == [] then Some([])
    else
      match DecodeQuantum(s[..4])
      case None => None
      case Some(head) =>
        if s[4..] == [] then Some(head)
        else if |head| < 3 then None
        else
          match DecodeQuanta(s[4..])
          case None => None
          case Some(tail) => Some(head + tail)
  }

  /** Strict base 64 decoding; `None` plays the part of Python's `binascii.Error`. */
  function Decode(s: string): (r: Option<seq<byte>>)
    ensures r.Some? ==> |s| % 4 == 0
  {
    if |s| % 4 != 0 then None else DecodeQuanta(s)
  }

  /** Encodes one to three bytes as one quantum, padding with `=` when short. */
  function EncodeQuantum(b: seq<byte>): (q: string)
    requires 1 <= |b| <= 3
    ensures |q| == 4 && forall i :: 0 <= i < 4 ==> InAlphabet(q[i])
  {
    var x := b[0] as int;
    if |b| == 1 then
      [Char(x / 4), Char(x % 4 * 16), '=', '=']
    else
      var y := b[1] as int;
      if |b| == 2 then
        [Char(x / 4), Char(x % 4 * 16 + y / 16), Char(y % 16 * 4), '=']
      else
        var z := b[2] as int;
        [Char(x / 4), Char(x % 4 * 16 + y / 16), Char(y % 16 * 4 + z / 64), Char(z % 64)]
  }

  /** Base 64 encoding with padding, three bytes to four characters. */
  function Encode(b: seq<byte>): (s: string)
    ensures |s| % 4 == 0
    ensures forall i :: 0 <= i < |s| ==> InAlphabet(s[i])
  {
    if |b| == 0 then []
    else if |b| <= 3 then EncodeQuantum(b)
    else EncodeQuantum(b[..3]) + Encode(b[3..])
  }

  /** The sextet arithmetic of the encoder is undone by that of the decoder. */
  lemma SextetsRoundTrip(x: int, y: int, z: int)
    requires 0 <= x < 256 && 0 <= y < 256 && 0 <= z < 256
    ensures var a, b, c := x / 4, x % 4 * 16 + y / 16, y % 16 * 4 + z / 64;
      0 <= b < 64 && 0 <= c < 64
      && a * 4 + b / 16 == x && b % 16 * 16 + c / 4 == y && c % 4 * 64 + z % 64 == z
  {
    var b, c := x % 4 * 16 + y / 16, y % 16 * 4 + z / 64;
    assert b / 16 == x % 4 && b % 16 == y / 16;
    assert c / 4 == y % 16 && c % 4 == z / 64;
  }

  lemma QuantumOfOne(x: int)
    requires 0 <= x < 256
    ensures DecodeQuantum([Char(x / 4), Char(x % 4 * 16), '=', '=']) == Some([x as byte])
  {
    SextetsRoundTrip(x, 0, 0);
    ValueOfChar(x / 4);
    ValueOfChar(x % 4 * 16);
  }

  lemma QuantumOfTwo(x: int, y: int)
    requires 0 <= x < 256 && 0 <= y < 256
    ensures DecodeQuantum([Char(x / 4), Char(x % 4 * 16 + y / 16), Char(y % 16 * 4), '='])
            == Some([x as byte, y as byte])
  {
    SextetsRoundTrip(x, y, 0);
    ValueOfChar(x / 4);
    ValueOfChar(x % 4 * 16 + y / 16);
    ValueOfChar(y % 16 * 4);
  }

  lemma QuantumOfThree(x: int, y: int, z: int)
    requires 0 <= x < 256 && 0 <= y < 256 && 0 <= z < 256
    ensures DecodeQuantum([Char(x / 4), Char(x % 4 * 16 + y / 16), Char(y % 16 * 4 + z / 64), Char(z % 64)])
            == Some([x as byte, y as byte, z as byte])
  {
    SextetsRoundTrip(x, y, z);
    ValueOfChar(x / 4);
    ValueOfChar(x % 4 * 16 + y / 16);
    ValueOfChar(y % 16 * 4 + z / 64);
    ValueOfChar(z % 64);
  }

  lemma QuantumRoundTrip(b: seq<byte>)
    requires 1 <= |b| <= 3
    ensures DecodeQuantum(EncodeQuantum(b)) == Some(b)
  {
    var x := b[0] as int;
    if |b| == 1 {
      QuantumOfOne(x);
      assert b == [x as byte];
    } else if |b| == 2 {
      var y := b[1] as int;
      QuantumOfTwo(x, y);
      assert b == [x as byte, y as byte];
    } else {
      var y, z := b[1] as int, b[2] as int;
      QuantumOfThree(x, y, z);
      assert b == [x as byte, y as byte, z as byte];
    }
  }

  /** Decoding inverts encoding: every byte string survives the round trip. */
  lemma {:induction false} DecodeEncode(b: seq<byte>)
    ensures Decode(Encode(b)) == Some(b)
    decreases |b|
  {
    var s := Encode(b);
    if |b| == 0 {
    } else if |b| <= 3 {
      QuantumRoundTrip(b);
      assert s[..4] == s && s[4..] == [];
    } else {
      QuantumRoundTrip(b[..3]);
      assert s[..4] == EncodeQuantum(b[..3]);
      DecodeEncode(b[3..]);
      assert s[4..] == Encode(b[3..]);
      assert b == b[..3] + b[3..];
    }
  }

  /** The characters of the 6-bit values below 32: `A`-`Z` and `a`-`f`. */
  predicate LowSextet(c: char) {
    'A' <= c <= 'Z' || 'a' <= c <= 'f'
  }

  /** A 6-bit value below 32 is written `A`-`Z` or `a`-`f`. */
  lemma CharLow(v: int)
    requires 0 <= v < 32
    ensures LowSextet(Char(v))
  {
  }

  /** A quantum whose first byte is below 128 starts with a character of `A`-`f`. */
  lemma QuantumLead(b: seq<byte>)
    requires 1 <= |b| <= 3 && b[0] < 128
    ensures LowSextet(EncodeQuantum(b)[0])
  {
    CharLow(b[0] as int / 4);
  }

  /**
   * Bytes below 128 have a top sextet below 32, so every quantum of their
   * encoding starts with a character of `A`-`Z` or `a`-`f`.
   */
  lemma {:induction false} EncodeAsciiLeads(b: seq<byte>)
    requires forall i :: 0 <= i < |b| ==> b[i] < 128
    ensures forall i :: 0 <= i < |Encode(b)| && i % 4 == 0 ==> LowSextet(Encode(b)[i])
  {
    if 0 < |b| <= 3 {
      QuantumLead(b);
    } else if |b| > 3 {
      QuantumLead(b[..3]);
      EncodeAsciiLeads(b[3..]);
      var s, q, t := Encode(b), EncodeQuantum(b[..3]), Encode(b[3..]);
      assert s == q + t;
      forall i | 0 <= i < |s| && i % 4 == 0 ensures LowSextet(s[i]) {
        if i >= 4 {
          assert s[i] == t[i - 4];
        } else {
          assert s[i] == q[0];
        }
      }
    }
  }
}
