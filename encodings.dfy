/** The character encodings the macros are bound to, and the codec service that converts
    text into them. The codec's tables and algorithm are not modelled: a `Codec` is any pair
    of functions, and facts about a particular encoder are stated as hypotheses. */
module Encodings {
  import opened Tokens

  /** The 26 encodings some entry point is bound to. */
  datatype Encoding =
    | Big5 | EucJp | EucKr | Gbk | Gb18030
    | Iso8859_2 | Iso8859_4 | Iso8859_5 | Iso8859_6 | Iso8859_7 | Iso8859_8
    | Iso8859_10 | Iso8859_13 | Iso8859_15 | Iso8859_16
    | Koi8R | Koi8U | ShiftJis
    | Windows874 | Windows1251 | Windows1252 | Windows1253 | Windows1254
    | Windows1255 | Windows1256 | Windows1257

  /** The identifier of the codec library's static for each encoding. */
  function StaticName(e: Encoding): string {
    match e
    case Big5 => "BIG5"
    case EucJp => "EUC_JP"
    case EucKr => "EUC_KR"
    case Gbk => "GBK"
    case Gb18030 => "GB18030"
    case Iso8859_2 => "ISO_8859_2"
    case Iso8859_4 => "ISO_8859_4"
    case Iso8859_5 => "ISO_8859_5"
    case Iso8859_6 => "ISO_8859_6"
    case Iso8859_7 => "ISO_8859_7"
    case Iso8859_8 => "ISO_8859_8"
    case Iso8859_10 => "ISO_8859_10"
    case Iso8859_13 => "ISO_8859_13"
    case Iso8859_15 => "ISO_8859_15"
    case Iso8859_16 => "ISO_8859_16"
    case Koi8R => "KOI8_R"
    case Koi8U => "KOI8_U"
    case ShiftJis => "SHIFT_JIS"
    case Windows874 => "WINDOWS_874"
    case Windows1251 => "WINDOWS_1251"
    case Windows1252 => "WINDOWS_1252"
    case Windows1253 => "WINDOWS_1253"
    case Windows1254 => "WINDOWS_1254"
    case Windows1255 => "WINDOWS_1255"
    case Windows1256 => "WINDOWS_1256"
    case Windows1257 => "WINDOWS_1257"
  }

  /** What one call of the encoder gives back: the bytes, and whether some character had no
      mapping in the target encoding. */
  datatype EncodeResult = EncodeResult(bytes: seq<byte>, unmappable: bool)

  /** The codec service: `encode` converts text, `name` is an encoding's display name. */
  datatype Codec = Codec(encode: (Encoding, string) -> EncodeResult, name: Encoding -> string)

  /** The reference for an encoder that works character by character: the concatenation of
      each character's bytes, unmappable when some character is. */
  function EncodeEach(c: Codec, e: Encoding, s: string): (r: EncodeResult)
    ensures r.unmappable <==> exists i :: 0 <= i < |s| && c.encode(e, [s[i]]).unmappable
    decreases |s|
  {
    if s == [] then EncodeResult([], false)
    else
      var head := c.encode(e, [s[0]]);
      var tail := EncodeEach(c, e, s[1..]);
      assert forall i :: 1 <= i < |s| ==> s[i] == s[1..][i - 1];
      EncodeResult(head.bytes + tail.bytes, head.unmappable || tail.unmappable)
  }

  /** The encoder for `e` keeps no state from one character to the next, as the encoders of
      all 26 bound encodings do. */
  ghost predicate ByCharacter(c: Codec, e: Encoding) {
    forall s {:trigger EncodeEach(c, e, s)} :: c.encode(e, s) == EncodeEach(c, e, s)
  }

  /** The encoder for `e` maps the character `ch` to `bytes` without failure. */
  predicate EncodesAs(c: Codec, e: Encoding, ch: char, bytes: seq<byte>) {
    c.encode(e, [ch]) == EncodeResult(bytes, false)
  }

  predicate IsAscii(s: string) {
    forall i :: 0 <= i < |s| ==> s[i] < 128 as char
  }

  /** The bytes of an ASCII text, one per character. */
  function AsciiBytes(s: string): (r: seq<byte>)
    requires IsAscii(s)
    ensures |r| == |s|
  {
    seq(|s|, i requires 0 <= i < |s| => s[i] as int as byte)
  }

  /** The encoder for `e` maps `ch`, when it is an ASCII character, to its own code. */
  predicate KeepsAscii(c: Codec, e: Encoding, ch: char) {
    ch < 128 as char ==> EncodesAs(c, e, ch, [ch as int as byte])
  }

  /** The encoder for `e` passes every ASCII character through as its own code. */
  ghost predicate AsciiCompatible(c: Codec, e: Encoding) {
    forall ch: char :: KeepsAscii(c, e, ch)
  }

  /** Encoding a concatenation character by character is concatenating the two encodings. */
  lemma {:induction false} EncodeEachAppend(c: Codec, e: Encoding, s: string, t: string)
    ensures EncodeEach(c, e, s + t).bytes == EncodeEach(c, e, s).bytes + EncodeEach(c, e, t).bytes
    ensures EncodeEach(c, e, s + t).unmappable == (EncodeEach(c, e, s).unmappable || EncodeEach(c, e, t).unmappable)
    decreases |s|
  {
    if s != [] {
      assert (s + t)[1..] == s[1..] + t;
      assert (s + t)[0] == s[0];
      EncodeEachAppend(c, e, s[1..], t);
    } else {
      assert s + t == t;
    }
  }

  /** An ASCII-compatible encoder that works character by character leaves ASCII text as it is. */
  lemma {:induction false} EncodeEachAscii(c: Codec, e: Encoding, s: string)
    requires AsciiCompatible(c, e)
    requires IsAscii(s)
    ensures EncodeEach(c, e, s) == EncodeResult(AsciiBytes(s), false)
    decreases |s|
  {
    if s != [] {
      assert IsAscii(s[1..]) by {
        forall i | 0 <= i < |s[1..]| ensures s[1..][i] < 128 as char {
          assert s[1..][i] == s[i + 1];
        }
      }
      EncodeEachAscii(c, e, s[1..]);
      assert KeepsAscii(c, e, s[0]);
      assert AsciiBytes(s) == [s[0] as int as byte] + AsciiBytes(s[1..]);
    }
  }
}
