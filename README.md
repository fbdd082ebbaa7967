# encoded — a Dafny model of compile-time literal conversion

The `encoded` crate provides function-like procedural macros such as `shift_jis!("漢字")`.
At compile time they turn a string or char literal into a byte-string literal in a legacy
character encoding. This project models the crate's two core pieces and proves their
properties:

- the shared pipeline `convert` (module `Inner`, `inner.dfy`). It checks that the argument is
  exactly one token and that the token is a literal. It decodes the literal first as a string
  literal, then as a char literal. It calls the encoder once, then expands to one byte-string
  literal or to a `compile_error!("…")` invocation whose top-level tokens carry the failing span.
- the 26 entry points `big5` … `windows_1257` (module `Encoded`, `encoded.dfy`). Each one
  hands its tokens unchanged to `convert` with one fixed encoding. They are modelled as a
  datatype `Macro`, a name table `Name`, a binding table `Binding` and the registry map from
  name to encoding.

The pieces the crate calls but does not implement are parameters. `Host` holds the
literal decoders (string value, char value) and the host lexer used by `error`. `Codec` holds
the encoder and the encodings' display names. Facts about a particular encoder appear only as
hypotheses of the lemmas in `Scenarios` (`scenarios.dfy`). Examples are: "the encoder works
character by character" (`ByCharacter`), "ASCII passes through" (`AsciiCompatible`) and "'漢'
encodes as 8A BF" (`EncodesAs`). Tokens, spans and literals are in `tokens.dfy`. The encodings
and the character-by-character reference encoder `EncodeEach` are in `encodings.dfy`.

Modelling decisions:
- The argument-count diagnostic is anchored at the call site for zero tokens and for two or
  more tokens alike (src/inner.rs:12), not at the first excess token.
- `error` lexes `compile_error!("<message>")` and then sets the span of each top-level token.
  The model states this for any lexer result: the count and order are unchanged and only spans
  differ. With a lexer that reads a plain message as the usual three tokens, `PlainError` shows
  that the message literal nested inside the parenthesised group keeps the call-site span.
  Setting a group's span moves only its delimiters.
- The `unwrap` of a failed lex is the outcome `Panicked`. The model does not claim which
  messages lex. A message is spliced in without escaping, so text containing `"` or `\` may
  lex differently or panic. The model only states that `Plain` messages are safe when the
  lexer reads them in the usual way.
- The byte-string literal built by `Literal::byte_string` is `Literal(ByteString(bytes), CallSite)`.
  Its spelling is not modelled.

## Model

| member | source | states |
|---|---|---|
| `Inner.Convert` | src/inner.rs:7-33 | The macro body for one encoding. Its contract is carried by `ArityError`, `NotALiteral`, `NotAString`, `Unmappable` and `Success` (one lemma per path), by `BytesExactlyOnSuccess` (a byte literal exactly on success), by `PanicOnlyFromUnplainText` (no panic on the fixed diagnostics), and by `EncoderFrame`, `SpellingIrrelevant` and `CharAsString` (what the expansion depends on). |
| `Inner.LiteralText` | src/inner.rs:15-21 | Decoding as a string literal, then as a char literal. Its contract is carried by `StringBeforeChar`. |
| `Inner.Error` | src/inner.rs:35-44 | The expansion panics exactly when the lexer rejects `compile_error!("message")`. Otherwise it has as many tokens as the lexed template, in the same order, each with its span replaced by the given span and otherwise unchanged. |
| `Inner.PlainError` | src/inner.rs:35-44 | For a message without quote, backslash or carriage return, the diagnostic is `compile_error`, `!` and `( "message" )`, all at the failing span. The nested message literal keeps the call-site span. |
| `Inner.NoByteLiteralFromError` | src/inner.rs:35-44 | A diagnostic expansion is never a byte-string literal when the lexer starts `compile_error!(…)` with its identifier. |
| `Inner.PanicOnlyFromUnplainText` | src/inner.rs:7-44 | With a lexer that reads plain messages in the usual way, the macro panics only for an accepted text that is unmappable and whose "cannot be converted" message contains a quote, backslash or carriage return. The arity, non-literal and non-string diagnostics never panic. |
| `Inner.ArityError` | src/inner.rs:9-12 | Zero tokens, or two or more: the "macro takes 1 argument" diagnostic at the call-site span. |
| `Inner.NotALiteral` | src/inner.rs:9-11 | One token that is not a literal (an identifier, punctuation, a group): the "argument must be a literal" diagnostic at that token's own span. |
| `Inner.StringBeforeChar` | src/inner.rs:15-21 | The string value wins when there is one. Otherwise a char value becomes the one-character text. The literal has no text exactly when both decoders fail. |
| `Inner.NotAString` | src/inner.rs:15-21 | A literal that is neither a string nor a char literal: the "literal must be a string" diagnostic at the literal's span. |
| `Inner.Unmappable` | src/inner.rs:23-27 | An accepted text the encoder reports as unmappable: the diagnostic "<text> cannot be converted to <encoding name>" at the literal's span. |
| `Inner.Success` | src/inner.rs:23-32 | An accepted text the encoder maps fully: exactly one byte-string literal holding the encoder's bytes. |
| `Inner.BytesExactlyOnSuccess` | src/inner.rs:7-33 | The macro yields a byte-string literal with bytes `b` if and only if the argument is one literal whose decoded text encodes to `b` without failure. |
| `Inner.EncoderFrame` | src/inner.rs:9-27 | The encoder is consulted only for an accepted argument, only on its decoded text, and the encoding's name only on failure. Two codecs that agree there give identical expansions. |
| `Inner.SpellingIrrelevant` | src/inner.rs:15-23 | Two literals with the same decoded text expand identically, whether written with escapes, raw or plain. |
| `Inner.CharAsString` | src/inner.rs:15-18 | A char literal expands exactly like the one-character string literal of the same character. |
| `Encodings.EncodeEach` | src/inner.rs:23-24 | The character-by-character reference encoder fails if and only if some character of the text has no mapping. |
| `Encodings.EncodeEachAppend` | src/inner.rs:23 | Encoding a concatenation character by character concatenates the two encodings, and fails if either part fails. |
| `Encodings.EncodeEachAscii` | tests/literal.rs:21-37 | An ASCII-compatible character-by-character encoder returns ASCII text as its own bytes, without failure. |
| `Scenarios.UnmappableAnywhere` | src/inner.rs:23-27 | With a character-by-character encoder, one unmappable character anywhere turns the whole literal into the "cannot be converted" diagnostic at its span. |
| `Scenarios.AsciiUnchanged` | tests/literal.rs:21-37 | Any entry point with an ASCII-compatible character-by-character encoder turns an ASCII text, whether written plainly, raw or with hex escapes, into its own bytes. |
| `Scenarios.ShiftJisKanji` | src/lib.rs:267-278 | Given the Shift_JIS codes of 漢 and 字, `shift_jis!` on any literal whose text is "漢字" (plain or Unicode escapes) yields 8A BF 8E 9A. This is the crate doc example at src/lib.rs:10-11 and the tests at tests/literal.rs:3-13. |
| `Scenarios.ShiftJisChar` | tests/literal.rs:15-19 | Given the Shift_JIS code of 字, `shift_jis!('字')` yields 8E 9A. |
| `Scenarios.Oeufs` | src/lib.rs:215-226 | An ASCII-compatible, character-by-character encoder that maps 'œ' to the byte `b` turns "œufs" into `b` followed by 75 66 73. |
| `Scenarios.OeufsDisagree` | src/lib.rs:215-226 | Given where ISO-8859-15 and windows-1252 (src/lib.rs:306-317) place 'œ', "œufs" yields BD 75 66 73 through `iso_8859_15!` and 9C 75 66 73 through `windows_1252!`. The two entry points differ on the same argument. |
| `Encoded.Name` | src/lib.rs:54-382 | The name of each of the 26 entry points. Its contract is carried by `NameMatchesBinding` and `NameInjective`. |
| `Encoded.Binding` | src/lib.rs:54-382 | The encoding static each entry point passes to `convert`. Its contract is carried by `NameMatchesBinding`, `BindingInjective` and `BindingOnto`. |
| `Encoded.Expand` | src/lib.rs:54-57 | An entry point's expansion: `convert` on the unchanged tokens with its bound encoding. Its contract is carried by `InvokeByName` and by the `Scenarios` lemmas. |
| `Encoded.Invoke` | src/lib.rs:54-382 | Invoking a macro by name. Its contract is carried by `InvokeByName` (every name runs its own entry point) and `InvokeUnknown` (an unknown name runs nothing). |
| `Encoded.NameMatchesBinding` | src/lib.rs:54-382 | Every entry point's name is the lower-case identifier of the encoding static it passes to `convert` (for example `shift_jis` to `SHIFT_JIS`). |
| `Encoded.NameInjective` | src/lib.rs:54-382 | No two entry points share a name. |
| `Encoded.BindingInjective` | src/lib.rs:54-382 | Two entry points are bound to the same encoding only if they are the same entry point. |
| `Encoded.EntryFor` | src/lib.rs:54-382 | For each of the 26 encodings, an entry point whose binding is that encoding. |
| `Encoded.BindingOnto` | src/lib.rs:54-382 | Each of the 26 encodings has an entry point bound to it. This checks the model's own tables against each other, since `Encoding` lists exactly the bound encodings. |
| `Encoded.Registry` | src/lib.rs:54-382 | Every entry point's name is registered and maps to that entry point's encoding. Every registered name belongs to an entry point. |
| `Encoded.RegistryInjective` | src/lib.rs:54-382 | No two registered names map to the same encoding. |
| `Encoded.InvokeUnknown` | src/lib.rs:54-382 | A name that no entry point carries invokes nothing. |
| `Encoded.InvokeByName` | src/lib.rs:54-57 | Invoking an entry point by its name runs `convert` on the unchanged tokens with its bound encoding, with nothing before or after, as `big5` does at src/lib.rs:55-57 and every other entry point does likewise. |

## Left out

- The codec's tables and encode algorithm (encoding_rs) and its display names. `Codec` is a
  parameter, and concrete byte values appear only as lemma hypotheses. Nothing here checks
  that they are the real table entries.
- Encodings of the codec library that no entry point uses are not part of this model. The
  `Encoding` datatype lists the 26 bound ones.
- The bytes the encoder returns when it reports a failure, and the second element of its
  result (the output encoding). `convert` ignores both.
- Lexical decoding of literals (litrs `StringLit`/`CharLit`): escapes, raw delimiters and
  suffixes are the `Host` decoders' business, so scenarios state the decoded text as a
  hypothesis.
- The host lexer `TokenStream::from_str`, token-stream iteration and collection, and
  `Span::call_site()`. Spans are opaque values.
- Which messages the lexer accepts: the message is spliced in without escaping, and the model
  makes no claim for messages with `"` or `\`.
- The round trip from encoding back to decoding: the crate never decodes.
- The `compile_fail` doc examples, concurrency between macro invocations (each call is a pure
  function here), and the textual form of the emitted byte-string literal.
