/** Token trees as the host compiler hands them to a procedural macro and takes them back. */
module Tokens {

  /** The values of an octet. */
  newtype byte = x: int | 0 <= x < 256

  /** A source location. `CallSite` is the location of the macro invocation itself; every
      other location is opaque and only compared for equality. */
  datatype Span = CallSite | Site(id: nat)

  datatype Delimiter = Parenthesis | Brace | Bracket | Invisible

  /** A literal's content: either the spelling it had in the source (a string, char, number
      or byte-string literal, escapes and raw delimiters included), or a byte-string literal
      built from its bytes by the macro. */
  datatype Lit = Source(raw: string) | ByteString(bytes: seq<byte>)

  /** A token tree. Every variant carries its span; a group's span is the span of its
      delimiters, its inner tokens keep their own. */
  datatype Token =
    | Ident(name: string, span: Span)
    | Punct(ch: char, span: Span)
    | Literal(lit: Lit, span: Span)
    | Group(delimiter: Delimiter, stream: seq<Token>, span: Span)

  /** `a` is `b` with only its top-level span changed. */
  predicate SameExceptSpan(a: Token, b: Token) {
    a.(span := b.span) == b
  }

  /** The one-token expansion holding a byte-string literal, at the call site. */
  function ByteLiteral(bytes: seq<byte>): seq<Token> {
    [Literal(ByteString(bytes), CallSite)]
  }
}
