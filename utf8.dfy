/**
 * Strict UTF-8 decoding, the `bytes.decode()` that turns a base 64 payload
 * back into text: overlong forms, surrogates, code points above U+10FFFF and
 * truncated sequences are errors.
 */
module Utf8 {
  import opened Wrappers
  import opened Base64

  predicate IsContinuation(x: byte) {
    0x80 <= x < 0xC0
  }

  /** The first scalar value of `b` and how many bytes encode it. */
  function DecodeScalar(b: seq<byte>): (r: Option<(char, nat)>)
    requires |b| > 0
    ensures r.Some? ==> 1 <= r.value.1 <= 4 && r.value.1 <= |b|
    ensures r.Some? ==> (r.value.1 == 1 <==> b[0] < 0x80)
    ensures b[0] < 0x80 ==> r == Some((b[0] as int as char, 1))
  {
    var x := b[0] as int;
    if x < 0x80 then Some((x as char, 1))
    else if 0xC0 <= x < 0xE0 && |b| >= 2 && IsContinuation(b[1]) then
      var cp := (x - 0xC0) * 64 + (b[1] as int - 0x80);
      if cp < 0x80 then None else Some((cp as char, 2))
    else if 0xE0 <= x < 0xF0 && |b| >= 3 && IsContinuation(b[1]) && IsContinuation(b[2]) then
      var cp := (x - 0xE0) * 4096 + (b[1] as int - 0x80) * 64 + (b[2] as int - 0x80);
      if cp < 0x800 || (0xD800 <= cp < 0xE000) then None else Some((cp as char, 3))
    else if 0xF0 <= x < 0xF8 && |b| >= 4 && IsContinuation(b[1]) && IsContinuation(b[2]) && IsContinuation(b[3]) then
      var cp := (x - 0xF0) * 262144 + (b[1] as int - 0x80) * 4096 + (b[2] as int - 0x80) * 64 + (b[3] as int - 0x80);
      if cp < 0x10000 || cp >= 0x110000 then None else Some((cp as char, 4))
    else None
  }

  /** Python's `bytes.decode()` with the default `utf-8` codec and `strict` errors. */
  function Decode(b: seq<byte>): (r: Option<string>)
    decreases |b|
    ensures r.Some? ==> |r.value| <= |b|
  {
    if b == [] then Some([])
    else
      match DecodeScalar(b)
      case None => None
      case Some((c, n)) =>
        match Decode(b[n..])
        case None => None
        case Some(rest) => Some([c] + rest)
  }

  predicate IsAscii(s: string) {
    forall i :: 0 <= i < |s| ==> s[i] < '\U{80}'
  }

  /** The bytes of an ASCII string, one per character. */
  function AsciiBytes(s: string): (b: seq<byte>)
    requires IsAscii(s)
    ensures |b| == |s| && forall i :: 0 <= i < |s| ==> b[i] as int == s[i] as int
  {
    seq(|s|, i requires 0 <= i < |s| => s[i] as int as byte)
  }

  /** ASCII text decodes to itself, one byte per character. */
  lemma {:induction false} DecodeAscii(s: string)
    requires IsAscii(s)
    ensures Decode(AsciiBytes(s)) == Some(s)
    decreases |s|
  {
    if s != [] {
      var b := AsciiBytes(s);
      assert b[0] < 0x80 && b[0] as int as char == s[0];
      assert b[1..] == AsciiBytes(s[1..]);
      DecodeAscii(s[1..]);
      assert s == [s[0]] + s[1..];
    }
  }
}
