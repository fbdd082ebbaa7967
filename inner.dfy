/** The conversion pipeline every macro runs: check for exactly one literal argument, decode
    it as a string literal or else a char literal, encode the text once, and expand either to
    one byte-string literal or to a `compile_error!` invocation anchored at the failing span. */
module Inner {
  import opened Wrappers
  import opened Tokens
  import opened Encodings

  /** The host pieces the pipeline calls but does not implement: the literal decoders (a
      string literal's value, a char literal's value, absent when the literal is not of that
      kind) and the host's lexer that turns source text into tokens, absent when it rejects
      the text. A real lexer gives the tokens it produces the call-site span; the model does
      not enforce this, and only `LexesPlainMessages` assumes it. */
  datatype Host = Host(
    stringValue: Lit -> Option<string>,
    charValue: Lit -> Option<char>,
    lex: string -> Option<seq<Token>>)

  /** What the macro gives back to the compiler: an expansion, or a panic (the `unwrap` of a
      lexing failure). */
  datatype Outcome = Expanded(stream: seq<Token>) | Panicked

  const ArityMessage := "macro takes 1 argument"
  const NotLiteralMessage := "argument must be a literal"
  const NotStringMessage := "literal must be a string"

  function UnmappableMessage(text: string, encodingName: string): string {
    text + " cannot be converted to " + encodingName
  }

  /** The source text of the diagnostic expansion: the message spliced between the quotes
      of `compile_error!("…")`, without escaping. */
  function ErrorSource(message: string): string {
    "compile_error!(\"" + message + "\")"
  }

  /** The diagnostic expansion: the lexed `compile_error!("message")` with the span of each
      top-level token set to `span`. */
  function Error(host: Host, span: Span, message: string): (r: Outcome)
    ensures r.Panicked? <==> host.lex(ErrorSource(message)).None?
    ensures r.Expanded? ==>
              var template := host.lex(ErrorSource(message)).value;
              && |r.stream| == |template|
              && forall i :: 0 <= i < |r.stream| ==>
                   r.stream[i].span == span && SameExceptSpan(r.stream[i], template[i])
  {
    match host.lex(ErrorSource(message))
    case None => Panicked
    case Some(template) =>
      Expanded(seq(|template|, i requires 0 <= i < |template| => template[i].(span := span)))
  }

  /** The text a literal denotes: its string value if it is a string literal, otherwise the
      one-character text of its char value. */
  function LiteralText(host: Host, lit: Lit): Option<string> {
    match host.stringValue(lit)
    case Some(text) => Some(text)
    case None =>
      match host.charValue(lit)
      case Some(ch) => Some([ch])
      case None => None
  }

  /** The macro body shared by all entry points, for the encoding `e`. */
  function Convert(host: Host, codec: Codec, tokens: seq<Token>, e: Encoding): Outcome {
    if |tokens| != 1 then Error(host, CallSite, ArityMessage)
    else if !tokens[0].Literal? then Error(host, tokens[0].span, NotLiteralMessage)
    else
      var literal := tokens[0];
      match LiteralText(host, literal.lit)
      case None => Error(host, literal.span, NotStringMessage)
      case Some(text) =>
        var encoded := codec.encode(e, text);
        if encoded.unmappable then
          Error(host, literal.span, UnmappableMessage(text, codec.name(e)))
        else
          Expanded(ByteLiteral(encoded.bytes))
  }

  /** The argument is accepted: one literal token whose text decodes to `text`. */
  predicate Accepted(host: Host, tokens: seq<Token>, text: string) {
    |tokens| == 1 && tokens[0].Literal? && LiteralText(host, tokens[0].lit) == Some(text)
  }

  // ----- the outcome of each path -----

  /** No argument, or more than one: the arity diagnostic at the call site. */
  lemma ArityError(host: Host, codec: Codec, tokens: seq<Token>, e: Encoding)
    requires |tokens| != 1
    ensures Convert(host, codec, tokens, e) == Error(host, CallSite, ArityMessage)
  {
  }

  /** One argument that is not a literal: the diagnostic at that token's own span. */
  lemma NotALiteral(host: Host, codec: Codec, tokens: seq<Token>, e: Encoding)
    requires |tokens| == 1 && !tokens[0].Literal?
    ensures Convert(host, codec, tokens, e) == Error(host, tokens[0].span, NotLiteralMessage)
  {
  }

  /** A string literal is decoded as a string even when it would also decode as a char; a
      char literal becomes a one-character text; a literal that is neither is rejected. */
  lemma StringBeforeChar(host: Host, lit: Lit)
    ensures host.stringValue(lit).Some? ==> LiteralText(host, lit) == host.stringValue(lit)
    ensures host.stringValue(lit).None? && host.charValue(lit).Some? ==>
              LiteralText(host, lit) == Some([host.charValue(lit).value])
    ensures LiteralText(host, lit).None? <==> host.stringValue(lit).None? && host.charValue(lit).None?
  {
  }

  /** A literal that is neither a string nor a char literal: the diagnostic at its span. */
  lemma NotAString(host: Host, codec: Codec, lit: Lit, span: Span, e: Encoding)
    requires host.stringValue(lit).None? && host.charValue(lit).None?
    ensures Convert(host, codec, [Literal(lit, span)], e) == Error(host, span, NotStringMessage)
  {
  }

  /** An accepted text with an unmappable character: the diagnostic naming the text and the
      encoding, at the literal's span. */
  lemma Unmappable(host: Host, codec: Codec, tokens: seq<Token>, text: string, e: Encoding)
    requires Accepted(host, tokens, text) && codec.encode(e, text).unmappable
    ensures Convert(host, codec, tokens, e)
         == Error(host, tokens[0].span, UnmappableMessage(text, codec.name(e)))
  {
  }

  /** An accepted text that encodes without failure: exactly one byte-string literal holding
      the encoder's bytes. */
  lemma Success(host: Host, codec: Codec, tokens: seq<Token>, text: string, e: Encoding)
    requires Accepted(host, tokens, text) && !codec.encode(e, text).unmappable
    ensures Convert(host, codec, tokens, e) == Expanded(ByteLiteral(codec.encode(e, text).bytes))
  {
  }

  // ----- what the expansion depends on -----

  /** The encoder is consulted only for an accepted argument, and then only on its decoded
      text (and the encoding's name only when that text is unmappable): two codecs that agree
      there give the same expansion, whatever they do elsewhere. */
  lemma EncoderFrame(host: Host, c1: Codec, c2: Codec, tokens: seq<Token>, e: Encoding)
    requires forall text :: Accepted(host, tokens, text) ==>
               && c1.encode(e, text) == c2.encode(e, text)
               && (c1.encode(e, text).unmappable ==> c1.name(e) == c2.name(e))
    ensures Convert(host, c1, tokens, e) == Convert(host, c2, tokens, e)
  {
  }

  /** Only the decoded text matters, not how the literal was spelled: escapes, raw strings
      and plain characters with the same value expand alike. */
  lemma SpellingIrrelevant(host: Host, codec: Codec, a: Lit, b: Lit, span: Span, e: Encoding)
    requires LiteralText(host, a) == LiteralText(host, b)
    ensures Convert(host, codec, [Literal(a, span)], e) == Convert(host, codec, [Literal(b, span)], e)
  {
  }

  /** A char literal expands exactly as the one-character string literal of the same
      character. */
  lemma CharAsString(host: Host, codec: Codec, str: Lit, chr: Lit, ch: char, span: Span, e: Encoding)
    requires host.stringValue(str) == Some([ch])
    requires host.stringValue(chr).None? && host.charValue(chr) == Some(ch)
    ensures Convert(host, codec, [Literal(str, span)], e) == Convert(host, codec, [Literal(chr, span)], e)
  {
  }

  // ----- the diagnostic expansion -----

  /** Whatever the message, the host lexer reads `compile_error!(…)` as starting with the
      identifier `compile_error`, or rejects it. */
  ghost predicate LexesMacroName(host: Host) {
    forall message :: host.lex(ErrorSource(message)).Some? ==>
      var template := host.lex(ErrorSource(message)).value;
      |template| > 0 && template[0] == Ident("compile_error", CallSite)
  }

  /** A message with no quote, backslash or carriage return stays one string literal when
      spliced between quotes. */
  predicate Plain(message: string) {
    forall i :: 0 <= i < |message| ==> message[i] !in {'"', '\\', '\r'}
  }

  /** The three tokens of `compile_error!("message")` as lexed from source. */
  function CompileErrorCall(message: string): seq<Token> {
    [ Ident("compile_error", CallSite),
      Punct('!', CallSite),
      Group(Parenthesis, [Literal(Source("\"" + message + "\""), CallSite)], CallSite) ]
  }

  /** The host lexer reads `compile_error!("message")` as its three tokens when the message
      is plain. */
  ghost predicate LexesPlainMessages(host: Host) {
    forall message :: Plain(message) ==> host.lex(ErrorSource(message)) == Some(CompileErrorCall(message))
  }

  /** For a plain message the diagnostic is `compile_error`, `!` and the parenthesised group,
      all three at `span`; the message literal inside the group keeps the call-site span,
      since setting a group's span moves only its delimiters. */
  lemma PlainError(host: Host, span: Span, message: string)
    requires LexesPlainMessages(host) && Plain(message)
    ensures Error(host, span, message) == Expanded([
              Ident("compile_error", span),
              Punct('!', span),
              Group(Parenthesis, [Literal(Source("\"" + message + "\""), CallSite)], span)])
  {
  }

  /** The macro expands to a byte-string literal exactly when the argument is one literal
      whose decoded text encodes without failure, and the literal holds that encoding's
      bytes; every other path yields a diagnostic (or a panic), never a byte literal. */
  lemma BytesExactlyOnSuccess(host: Host, codec: Codec, tokens: seq<Token>, e: Encoding, bytes: seq<byte>)
    requires LexesMacroName(host)
    ensures Convert(host, codec, tokens, e) == Expanded(ByteLiteral(bytes))
        <==> exists text :: Accepted(host, tokens, text) && codec.encode(e, text) == EncodeResult(bytes, false)
  {
  }

  /** A diagnostic expansion never is a byte-string literal. */
  lemma NoByteLiteralFromError(host: Host, span: Span, message: string, bytes: seq<byte>)
    requires LexesMacroName(host)
    ensures Error(host, span, message) != Expanded(ByteLiteral(bytes))
  {
  }

  /** The three fixed diagnostics contain no quote, backslash or carriage return. */
  lemma FixedMessagesPlain()
    ensures Plain(ArityMessage) && Plain(NotLiteralMessage) && Plain(NotStringMessage)
  {
  }

  /** With a lexer that reads plain messages in the usual way, the macro never panics on the
      arity, non-literal and non-string paths, whose messages are plain: a panic can only come
      from an unmappable text whose own message is not plain. */
  lemma PanicOnlyFromUnplainText(host: Host, codec: Codec, tokens: seq<Token>, e: Encoding)
    requires LexesPlainMessages(host)
    ensures Convert(host, codec, tokens, e).Panicked? ==>
              exists text :: && Accepted(host, tokens, text)
                             && codec.encode(e, text).unmappable
                             && !Plain(UnmappableMessage(text, codec.name(e)))
  {
    FixedMessagesPlain();
    if |tokens| == 1 && tokens[0].Literal? && LiteralText(host, tokens[0].lit).Some? {
      var text := LiteralText(host, tokens[0].lit).value;
      assert Accepted(host, tokens, text);
    }
  }
}
