/** The crate's public surface: one function-like macro per encoding, each handing its
    argument unchanged to the shared pipeline with its own fixed encoding. */
module Encoded {
  import opened Wrappers
  import opened Tokens
  import Encodings
  import Inner

  /** The 26 entry points, in the order the crate declares them. */
  datatype Macro =
    | Big5 | EucJp | EucKr | Gbk | Gb18030
    | Iso8859_2 | Iso8859_4 | Iso8859_5 | Iso8859_6 | Iso8859_7 | Iso8859_8
    | Iso8859_10 | Iso8859_13 | Iso8859_15 | Iso8859_16
    | Koi8R | Koi8U | ShiftJis
    | Windows874 | Windows1251 | Windows1252 | Windows1253 | Windows1254
    | Windows1255 | Windows1256 | Windows1257

  const Macros: seq<Macro> := [
    Big5, EucJp, EucKr, Gbk, Gb18030,
    Iso8859_2, Iso8859_4, Iso8859_5, Iso8859_6, Iso8859_7, Iso8859_8,
    Iso8859_10, Iso8859_13, Iso8859_15, Iso8859_16,
    Koi8R, Koi8U, ShiftJis,
    Windows874, Windows1251, Windows1252, Windows1253, Windows1254,
    Windows1255, Windows1256, Windows1257]

  /** The name a caller writes before the `!`. */
  function Name(m: Macro): string {
    match m
    case Big5 => "big5"
    case EucJp => "euc_jp"
    case EucKr => "euc_kr"
    case Gbk => "gbk"
    case Gb18030 => "gb18030"
    case Iso8859_2 => "iso_8859_2"
    case Iso8859_4 => "iso_8859_4"
    case Iso8859_5 => "iso_8859_5"
    case Iso8859_6 => "iso_8859_6"
    case Iso8859_7 => "iso_8859_7"
    case Iso8859_8 => "iso_8859_8"
    case Iso8859_10 => "iso_8859_10"
    case Iso8859_13 => "iso_8859_13"
    case Iso8859_15 => "iso_8859_15"
    case Iso8859_16 => "iso_8859_16"
    case Koi8R => "koi8_r"
    case Koi8U => "koi8_u"
    case ShiftJis => "shift_jis"
    case Windows874 => "windows_874"
    case Windows1251 => "windows_1251"
    case Windows1252 => "windows_1252"
    case Windows1253 => "windows_1253"
    case Windows1254 => "windows_1254"
    case Windows1255 => "windows_1255"
    case Windows1256 => "windows_1256"
    case Windows1257 => "windows_1257"
  }

  /** The encoding each entry point passes to the pipeline. */
  function Binding(m: Macro): Encodings.Encoding {
    match m
    case Big5 => Encodings.Big5
    case EucJp => Encodings.EucJp
    case EucKr => Encodings.EucKr
    case Gbk => Encodings.Gbk
    case Gb18030 => Encodings.Gb18030
    case Iso8859_2 => Encodings.Iso8859_2
    case Iso8859_4 => Encodings.Iso8859_4
    case Iso8859_5 => Encodings.Iso8859_5
    case Iso8859_6 => Encodings.Iso8859_6
    case Iso8859_7 => Encodings.Iso8859_7
    case Iso8859_8 => Encodings.Iso8859_8
    case Iso8859_10 => Encodings.Iso8859_10
    case Iso8859_13 => Encodings.Iso8859_13
    case Iso8859_15 => Encodings.Iso8859_15
    case Iso8859_16 => Encodings.Iso8859_16
    case Koi8R => Encodings.Koi8R
    case Koi8U => Encodings.Koi8U
    case ShiftJis => Encodings.ShiftJis
    case Windows874 => Encodings.Windows874
    case Windows1251 => Encodings.Windows1251
    case Windows1252 => Encodings.Windows1252
    case Windows1253 => Encodings.Windows1253
    case Windows1254 => Encodings.Windows1254
    case Windows1255 => Encodings.Windows1255
    case Windows1256 => Encodings.Windows1256
    case Windows1257 => Encodings.Windows1257
  }

  /** The expansion of `m!(tokens)`: the pipeline, with nothing before or after it. */
  function Expand(host: Inner.Host, codec: Encodings.Codec, m: Macro, tokens: seq<Token>): Inner.Outcome {
    Inner.Convert(host, codec, tokens, Binding(m))
  }

  function LowerChar(ch: char): char {
    if 'A' <= ch <= 'Z' then (ch as int + 32) as char else ch
  }

  function Lower(s: string): string {
    seq(|s|, i requires 0 <= i < |s| => LowerChar(s[i]))
  }

  /** The entry point's name is the lower-case identifier of its encoding's static. */
  predicate NamedAfterBinding(m: Macro) {
    Name(m) == Lower(Encodings.StaticName(Binding(m)))
  }

  /** Each entry point is named after the encoding it is bound to. */
  lemma NameMatchesBinding(m: Macro)
    ensures Name(m) == Lower(Encodings.StaticName(Binding(m)))
  {
    if m.Big5? || m.EucJp? || m.EucKr? || m.Gbk? || m.Gb18030? || m.ShiftJis? {
      EastAsianNamed(m);
    } else if m.Iso8859_2? || m.Iso8859_4? || m.Iso8859_5? || m.Iso8859_6? || m.Iso8859_7? {
      IsoLowNamed(m);
    } else if m.Iso8859_8? || m.Iso8859_10? || m.Iso8859_13? || m.Iso8859_15? || m.Iso8859_16? {
      IsoHighNamed(m);
    } else if m.Koi8R? || m.Koi8U? {
      Koi8Named(m);
    } else if m.Windows874? || m.Windows1251? || m.Windows1252? || m.Windows1253? {
      WindowsLowNamed(m);
    } else {
      WindowsHighNamed(m);
    }
  }

  lemma EastAsianNamed(m: Macro)
    requires m.Big5? || m.EucJp? || m.EucKr? || m.Gbk? || m.Gb18030? || m.ShiftJis?
    ensures NamedAfterBinding(m)
  {
    EastAsianNames();
  }

  lemma IsoLowNamed(m: Macro)
    requires m.Iso8859_2? || m.Iso8859_4? || m.Iso8859_5? || m.Iso8859_6? || m.Iso8859_7?
    ensures NamedAfterBinding(m)
  {
    IsoLowNames();
  }

  lemma IsoHighNamed(m: Macro)
    requires m.Iso8859_8? || m.Iso8859_10? || m.Iso8859_13? || m.Iso8859_15? || m.Iso8859_16?
    ensures NamedAfterBinding(m)
  {
    IsoHighNames();
  }

  lemma Koi8Named(m: Macro)
    requires m.Koi8R? || m.Koi8U?
    ensures NamedAfterBinding(m)
  {
    Koi8Names();
  }

  lemma WindowsLowNamed(m: Macro)
    requires m.Windows874? || m.Windows1251? || m.Windows1252? || m.Windows1253?
    ensures NamedAfterBinding(m)
  {
    WindowsLowNames();
  }

  lemma WindowsHighNamed(m: Macro)
    requires m.Windows1254? || m.Windows1255? || m.Windows1256? || m.Windows1257?
    ensures NamedAfterBinding(m)
  {
    WindowsHighNames();
  }

  /** The name check for the East Asian multi-byte encodings. */
  lemma EastAsianNames()
    ensures Lower("BIG5") == "big5"
         && Lower("EUC_JP") == "euc_jp"
         && Lower("EUC_KR") == "euc_kr"
         && Lower("GBK") == "gbk"
         && Lower("GB18030") == "gb18030"
         && Lower("SHIFT_JIS") == "shift_jis"
  {
  }

  /** The name check for ISO 8859-2 to ISO 8859-7. */
  lemma IsoLowNames()
    ensures Lower("ISO_8859_2") == "iso_8859_2"
         && Lower("ISO_8859_4") == "iso_8859_4"
         && Lower("ISO_8859_5") == "iso_8859_5"
         && Lower("ISO_8859_6") == "iso_8859_6"
         && Lower("ISO_8859_7") == "iso_8859_7"
  {
  }

  /** The name check for ISO 8859-8 to ISO 8859-16. */
  lemma IsoHighNames()
    ensures Lower("ISO_8859_8") == "iso_8859_8"
         && Lower("ISO_8859_10") == "iso_8859_10"
         && Lower("ISO_8859_13") == "iso_8859_13"
         && Lower("ISO_8859_15") == "iso_8859_15"
         && Lower("ISO_8859_16") == "iso_8859_16"
  {
  }

  /** The name check for the KOI8 encodings. */
  lemma Koi8Names()
    ensures Lower("KOI8_R") == "koi8_r"
         && Lower("KOI8_U") == "koi8_u"
  {
  }

  /** The name check for windows-874 to windows-1253. */
  lemma WindowsLowNames()
    ensures Lower("WINDOWS_874") == "windows_874"
         && Lower("WINDOWS_1251") == "windows_1251"
         && Lower("WINDOWS_1252") == "windows_1252"
         && Lower("WINDOWS_1253") == "windows_1253"
  {
  }

  /** The name check for windows-1254 to windows-1257. */
  lemma WindowsHighNames()
    ensures Lower("WINDOWS_1254") == "windows_1254"
         && Lower("WINDOWS_1255") == "windows_1255"
         && Lower("WINDOWS_1256") == "windows_1256"
         && Lower("WINDOWS_1257") == "windows_1257"
  {
  }

  /** Different entry points are bound to different encodings. */
  lemma BindingInjective(m: Macro, n: Macro)
    ensures Binding(m) == Binding(n) <==> m == n
  {
  }

  /** The entry point bound to an encoding. The `Encoding` datatype lists exactly the bound
      encodings, so this checks the model's own tables against each other: every constructor
      of `Encoding` is reached by `Binding`. */
  function EntryFor(e: Encodings.Encoding): (m: Macro)
    ensures Binding(m) == e
  {
    match e
    case Big5 => Big5
    case EucJp => EucJp
    case EucKr => EucKr
    case Gbk => Gbk
    case Gb18030 => Gb18030
    case Iso8859_2 => Iso8859_2
    case Iso8859_4 => Iso8859_4
    case Iso8859_5 => Iso8859_5
    case Iso8859_6 => Iso8859_6
    case Iso8859_7 => Iso8859_7
    case Iso8859_8 => Iso8859_8
    case Iso8859_10 => Iso8859_10
    case Iso8859_13 => Iso8859_13
    case Iso8859_15 => Iso8859_15
    case Iso8859_16 => Iso8859_16
    case Koi8R => Koi8R
    case Koi8U => Koi8U
    case ShiftJis => ShiftJis
    case Windows874 => Windows874
    case Windows1251 => Windows1251
    case Windows1252 => Windows1252
    case Windows1253 => Windows1253
    case Windows1254 => Windows1254
    case Windows1255 => Windows1255
    case Windows1256 => Windows1256
    case Windows1257 => Windows1257
  }

  /** Every encoding of the model has an entry point bound to it (a check of the model's own
      tables, as for `EntryFor`). */
  lemma BindingOnto(e: Encodings.Encoding)
    ensures exists m :: Binding(m) == e
  {
    assert Binding(EntryFor(e)) == e;
  }

  /** The registry of entry points: each name maps to the encoding its macro is bound to. */
  function Registry(): (t: map<string, Encodings.Encoding>)
    ensures forall m :: Name(m) in t && t[Name(m)] == Binding(m)
    ensures forall name :: name in t ==> exists m :: Name(m) == name
  {
    forall a, b | Name(a) == Name(b) ensures a == b {
      NameInjective(a, b);
    }
    map m | m in Macros :: Name(m) := Binding(m)
  }

  /** No two entry points share a name. */
  lemma NameInjective(a: Macro, b: Macro)
    ensures Name(a) == Name(b) <==> a == b
  {
  }

  /** Invoking a macro by name: none when no entry point has that name. */
  function Invoke(host: Inner.Host, codec: Encodings.Codec, name: string, tokens: seq<Token>): Option<Inner.Outcome> {
    if name in Registry() then Some(Inner.Convert(host, codec, tokens, Registry()[name])) else None
  }

  /** Every entry point, invoked by its name, runs the pipeline with its own encoding. */
  lemma InvokeByName(host: Inner.Host, codec: Encodings.Codec, m: Macro, tokens: seq<Token>)
    ensures Invoke(host, codec, Name(m), tokens) == Some(Expand(host, codec, m, tokens))
  {
  }

  /** No two names in the registry share an encoding. */
  lemma RegistryInjective(a: string, b: string)
    ensures a in Registry() && b in Registry() && Registry()[a] == Registry()[b] ==> a == b
  {
    var t := Registry();
    if a in t && b in t && t[a] == t[b] {
      var ma :| Name(ma) == a;
      var mb :| Name(mb) == b;
      BindingInjective(ma, mb);
    }
  }

  /** A name no entry point carries invokes nothing. */
  lemma InvokeUnknown(host: Inner.Host, codec: Encodings.Codec, name: string, tokens: seq<Token>)
    requires forall m :: Name(m) != name
    ensures Invoke(host, codec, name, tokens) == None
  {
  }
}
