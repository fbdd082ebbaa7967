/** The documented conversions, derived from the model under stated facts about the codec:
    that the encoder works character by character, and what it maps a few characters to. The
    byte values themselves come from the codec's tables and are hypotheses here. */
module Scenarios {
  import opened Wrappers
  import opened Tokens
  import opened Encodings
  import Inner
  import Encoded

  /** A character anywhere in the text with no mapping makes the whole literal a diagnostic
      at the literal's span, naming the text and the encoding (a CJK ideograph given to a
      Cyrillic single-byte encoding, say). */
  lemma UnmappableAnywhere(host: Inner.Host, codec: Codec, tokens: seq<Token>, text: string, e: Encoding, i: nat)
    requires ByCharacter(codec, e)
    requires Inner.Accepted(host, tokens, text)
    requires i < |text| && codec.encode(e, [text[i]]).unmappable
    ensures Inner.Convert(host, codec, tokens, e)
         == Inner.Error(host, tokens[0].span, Inner.UnmappableMessage(text, codec.name(e)))
  {
    assert codec.encode(e, text) == EncodeEach(codec, e, text);
  }

  /** Under an ASCII-compatible, character-by-character encoder, an ASCII text comes out as
      its own bytes, however the literal spells it (plainly, with hex escapes, or raw). */
  lemma AsciiUnchanged(host: Inner.Host, codec: Codec, m: Encoded.Macro, lit: Lit, span: Span, text: string)
    requires ByCharacter(codec, Encoded.Binding(m)) && AsciiCompatible(codec, Encoded.Binding(m))
    requires Inner.LiteralText(host, lit) == Some(text) && IsAscii(text)
    ensures Encoded.Expand(host, codec, m, [Literal(lit, span)]) == Inner.Expanded(ByteLiteral(AsciiBytes(text)))
  {
    EncodeEachAscii(codec, Encoded.Binding(m), text);
    assert codec.encode(Encoded.Binding(m), text) == EncodeEach(codec, Encoded.Binding(m), text);
  }

  /** `shift_jis!("漢字")`, whether spelled with the characters or with Unicode escapes, is the
      four bytes 8A BF 8E 9A, given the two characters' Shift_JIS codes. */
  lemma ShiftJisKanji(host: Inner.Host, codec: Codec, lit: Lit, span: Span)
    requires ByCharacter(codec, ShiftJis)
    requires EncodesAs(codec, ShiftJis, '漢', [0x8a, 0xbf]) && EncodesAs(codec, ShiftJis, '字', [0x8e, 0x9a])
    requires Inner.LiteralText(host, lit) == Some("漢字")
    ensures Encoded.Expand(host, codec, Encoded.ShiftJis, [Literal(lit, span)])
         == Inner.Expanded(ByteLiteral([0x8a, 0xbf, 0x8e, 0x9a]))
  {
    SingleCharacter(codec, ShiftJis, '漢', [0x8a, 0xbf]);
    SingleCharacter(codec, ShiftJis, '字', [0x8e, 0x9a]);
    EncodeEachAppend(codec, ShiftJis, "漢", "字");
    assert "漢字" == "漢" + "字";
    assert codec.encode(ShiftJis, "漢字") == EncodeEach(codec, ShiftJis, "漢字");
    assert "漢" == ['漢'] && "字" == ['字'];
    assert EncodeEach(codec, ShiftJis, "漢字") == EncodeResult([0x8a, 0xbf] + [0x8e, 0x9a], false);
    var kan: seq<byte>, ji: seq<byte> := [0x8a, 0xbf], [0x8e, 0x9a];
    assert kan + ji == [0x8a, 0xbf, 0x8e, 0x9a];
  }

  /** A one-character text encodes as that character does. */
  lemma SingleCharacter(codec: Codec, e: Encoding, ch: char, bytes: seq<byte>)
    requires EncodesAs(codec, e, ch, bytes)
    ensures EncodeEach(codec, e, [ch]) == EncodeResult(bytes, false)
  {
  }

  /** `shift_jis!('字')`, a char literal, is the two bytes 8E 9A, the same as the string
      literal "字" would give. */
  lemma ShiftJisChar(host: Inner.Host, codec: Codec, lit: Lit, span: Span)
    requires EncodesAs(codec, ShiftJis, '字', [0x8e, 0x9a])
    requires host.stringValue(lit).None? && host.charValue(lit) == Some('字')
    ensures Encoded.Expand(host, codec, Encoded.ShiftJis, [Literal(lit, span)])
         == Inner.Expanded(ByteLiteral([0x8e, 0x9a]))
  {
  }

  /** "œufs" through an ASCII-compatible, character-by-character encoder that maps 'œ' to the
      single byte `b`: that byte followed by the ASCII codes of "ufs". */
  lemma Oeufs(host: Inner.Host, codec: Codec, m: Encoded.Macro, lit: Lit, span: Span, b: byte)
    requires ByCharacter(codec, Encoded.Binding(m)) && AsciiCompatible(codec, Encoded.Binding(m))
    requires EncodesAs(codec, Encoded.Binding(m), 'œ', [b])
    requires Inner.LiteralText(host, lit) == Some("œufs")
    ensures Encoded.Expand(host, codec, m, [Literal(lit, span)]) == Inner.Expanded(ByteLiteral([b, 0x75, 0x66, 0x73]))
  {
    var e := Encoded.Binding(m);
    assert "œufs" == "œ" + "ufs" && "œ" == ['œ'];
    assert IsAscii("ufs");
    EncodeEachAscii(codec, e, "ufs");
    SingleCharacter(codec, e, 'œ', [b]);
    EncodeEachAppend(codec, e, "œ", "ufs");
    assert codec.encode(e, "œufs") == EncodeEach(codec, e, "œufs");
    var ufs: seq<byte> := [0x75, 0x66, 0x73];
    assert AsciiBytes("ufs") == ufs;
    assert [b] + ufs == [b, 0x75, 0x66, 0x73];
  }

  /** "œufs" through `iso_8859_15!` and through `windows_1252!`: the two encodings place 'œ'
      differently, so the two entry points give different bytes for the same argument. */
  lemma OeufsDisagree(host: Inner.Host, codec: Codec, lit: Lit, span: Span)
    requires ByCharacter(codec, Iso8859_15) && AsciiCompatible(codec, Iso8859_15)
    requires ByCharacter(codec, Windows1252) && AsciiCompatible(codec, Windows1252)
    requires EncodesAs(codec, Iso8859_15, 'œ', [0xbd]) && EncodesAs(codec, Windows1252, 'œ', [0x9c])
    requires Inner.LiteralText(host, lit) == Some("œufs")
    ensures Encoded.Expand(host, codec, Encoded.Iso8859_15, [Literal(lit, span)])
         == Inner.Expanded(ByteLiteral([0xbd, 0x75, 0x66, 0x73]))
    ensures Encoded.Expand(host, codec, Encoded.Windows1252, [Literal(lit, span)])
         == Inner.Expanded(ByteLiteral([0x9c, 0x75, 0x66, 0x73]))
    ensures Encoded.Expand(host, codec, Encoded.Iso8859_15, [Literal(lit, span)])
         != Encoded.Expand(host, codec, Encoded.Windows1252, [Literal(lit, span)])
  {
    Oeufs(host, codec, Encoded.Iso8859_15, lit, span, 0xbd);
    Oeufs(host, codec, Encoded.Windows1252, lit, span, 0x9c);
    var iso: seq<byte>, win: seq<byte> := [0xbd, 0x75, 0x66, 0x73], [0x9c, 0x75, 0x66, 0x73];
    assert iso[0] != win[0];
  }
}
