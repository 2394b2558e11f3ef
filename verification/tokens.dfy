/** The token vocabulary shared by the tokeniser and the validator: line-token kinds,
    the inline sentinel codes written into token text, and the line-token record. */
module Tokens {
  import opened Wrappers

  /** One byte of the manuscript buffer. */
  newtype byte = x: int | 0 <= x < 256

  // The byte values the scanner, the line classifier and the inline rewriter test for.
  const Nul: byte := 0x00
  const Tab: byte := 0x09
  const LineFeed: byte := 0x0A
  const CarriageReturn: byte := 0x0D
  const Space: byte := 0x20
  const DoubleQuote: byte := 0x22
  const Hash: byte := 0x23
  const Asterisk: byte := 0x2A
  const Hyphen: byte := 0x2D
  const Period: byte := 0x2E
  const Slash: byte := 0x2F
  const Digit0: byte := 0x30
  const Digit1: byte := 0x31
  const Digit9: byte := 0x39
  const UpperI: byte := 0x49
  const UpperV: byte := 0x56
  const UpperX: byte := 0x58
  const OpenBracket: byte := 0x5B
  const CloseBracket: byte := 0x5D
  const LowerA: byte := 0x61
  const LowerZ: byte := 0x7A
  const Delete: byte := 0x7F

  predicate IsDigit(b: byte) { Digit0 <= b <= Digit9 }

  /** The kind of a line token. The last two kinds are used by the validator but are
      missing from the header's enumeration; they are given the next two ordinals. */
  datatype LineTokenType =
    | NoType
    | Eof
    | Newline
    | Metadata
    | Paragraph
    | Heading1
    | Heading2
    | Heading3
    | Reference
    | Preformatted
    | BlockNewline
    | UnorderedList
    | BlockParagraph
    | OrderedListRoman
    | OrderedListArabic
    | OrderedListLetter
    | ParagraphBreak
    | BlockCitation

  /** The enumeration value of each kind. */
  function Ordinal(t: LineTokenType): (n: nat)
    ensures n < 18
  {
    match t
    case NoType => 0
    case Eof => 1
    case Newline => 2
    case Metadata => 3
    case Paragraph => 4
    case Heading1 => 5
    case Heading2 => 6
    case Heading3 => 7
    case Reference => 8
    case Preformatted => 9
    case BlockNewline => 10
    case UnorderedList => 11
    case BlockParagraph => 12
    case OrderedListRoman => 13
    case OrderedListArabic => 14
    case OrderedListLetter => 15
    case ParagraphBreak => 16
    case BlockCitation => 17
  }

  /** The kind an enumeration value denotes, if any. */
  function KindOfOrdinal(n: nat): (t: Option<LineTokenType>)
    ensures t.Some? <==> n < 18
    ensures t.Some? ==> Ordinal(t.value) == n
  {
    if n == 0 then Some(NoType)
    else if n == 1 then Some(Eof)
    else if n == 2 then Some(Newline)
    else if n == 3 then Some(Metadata)
    else if n == 4 then Some(Paragraph)
    else if n == 5 then Some(Heading1)
    else if n == 6 then Some(Heading2)
    else if n == 7 then Some(Heading3)
    else if n == 8 then Some(Reference)
    else if n == 9 then Some(Preformatted)
    else if n == 10 then Some(BlockNewline)
    else if n == 11 then Some(UnorderedList)
    else if n == 12 then Some(BlockParagraph)
    else if n == 13 then Some(OrderedListRoman)
    else if n == 14 then Some(OrderedListArabic)
    else if n == 15 then Some(OrderedListLetter)
    else if n == 16 then Some(ParagraphBreak)
    else if n == 17 then Some(BlockCitation)
    else None
  }

  /** Distinct kinds have distinct enumeration values. */
  lemma OrdinalInjective(a: LineTokenType, b: LineTokenType)
    ensures Ordinal(a) == Ordinal(b) ==> a == b
  {
    if Ordinal(a) == Ordinal(b) {
      assert KindOfOrdinal(Ordinal(a)) == Some(a) by { assert Ordinal(KindOfOrdinal(Ordinal(a)).value) == Ordinal(a); }
      assert KindOfOrdinal(Ordinal(b)) == Some(b) by { assert Ordinal(KindOfOrdinal(Ordinal(b)).value) == Ordinal(b); }
    }
  }

  predicate IsHeading(t: LineTokenType) { t.Heading1? || t.Heading2? || t.Heading3? }

  /** The kind the tokeniser computes as `heading_1 + depth`. */
  function HeadingOfDepth(depth: nat): (t: LineTokenType)
    requires depth < 3
    ensures IsHeading(t) && Ordinal(t) == Ordinal(Heading1) + depth
  {
    KindOfOrdinal(Ordinal(Heading1) + depth).value
  }

  /** The level the validator computes as `type - heading_1`. */
  function HeadingLevel(t: LineTokenType): int
  {
    Ordinal(t) - Ordinal(Heading1)
  }

  /** The two computations are inverse: depth 0..2 maps to the three heading kinds and back. */
  lemma HeadingDepthRoundTrip(depth: nat, t: LineTokenType)
    requires depth < 3
    ensures HeadingLevel(HeadingOfDepth(depth)) == depth
    ensures IsHeading(t) ==> 0 <= HeadingLevel(t) < 3 && HeadingOfDepth(HeadingLevel(t)) == t
  {
    if IsHeading(t) {
      OrdinalInjective(HeadingOfDepth(HeadingLevel(t)), t);
    }
  }

  /** The kinds of line token that carry a text run in the rewritten buffer. */
  predicate HasText(t: LineTokenType)
  {
    t.Paragraph? || IsHeading(t) || t.Reference? || t.BlockParagraph? || t.UnorderedList?
    || t.OrderedListRoman? || t.OrderedListArabic? || t.OrderedListLetter?
  }

  /** The kinds of line token whose `index` field is set. */
  predicate IsIndexed(t: LineTokenType)
  {
    t.Reference? || t.OrderedListRoman? || t.OrderedListArabic? || t.OrderedListLetter?
  }

  /** The kinds of line token the tokeniser emits. */
  predicate IsEmitted(t: LineTokenType)
  {
    HasText(t) || t.Newline? || t.BlockNewline? || t.Eof?
  }

  /** One line token. `text` is an offset into the rewritten buffer; `length` is the byte
      length of the text run, which is followed by a 0 byte. */
  datatype LineToken = LineToken(kind: LineTokenType, line: nat, text: nat, index: nat, length: nat)

  /** The inline sentinel codes written into token text. */
  datatype TextToken =
    | Null
    | EnDash
    | EmDash
    | InlineReference
    | StrongEnd
    | EmphasisEnd
    | PreformattedText
    | StrongBegin
    | EmphasisBegin
    | QuoteBegin
    | QuoteEnd

  function Code(t: TextToken): (b: byte)
    ensures b <= 10
  {
    match t
    case Null => 0
    case EnDash => 1
    case EmDash => 2
    case InlineReference => 3
    case StrongEnd => 4
    case EmphasisEnd => 5
    case PreformattedText => 6
    case StrongBegin => 7
    case EmphasisBegin => 8
    case QuoteBegin => 9
    case QuoteEnd => 10
  }

  function TextTokenOfCode(b: byte): (t: Option<TextToken>)
    ensures t.Some? <==> b <= 10
    ensures t.Some? ==> Code(t.value) == b
  {
    if b == 0 then Some(Null)
    else if b == 1 then Some(EnDash)
    else if b == 2 then Some(EmDash)
    else if b == 3 then Some(InlineReference)
    else if b == 4 then Some(StrongEnd)
    else if b == 5 then Some(EmphasisEnd)
    else if b == 6 then Some(PreformattedText)
    else if b == 7 then Some(StrongBegin)
    else if b == 8 then Some(EmphasisBegin)
    else if b == 9 then Some(QuoteBegin)
    else if b == 10 then Some(QuoteEnd)
    else None
  }

  /** The sentinel codes are pairwise distinct, the non-terminator ones are 1..10 and so
      lie below the space character, and the quote codes coincide with tab and line feed. */
  lemma SentinelCodes(s: TextToken, t: TextToken)
    ensures Code(s) == Code(t) ==> s == t
    ensures s != Null ==> 1 <= Code(s) <= 10 && Code(s) < Space
    ensures Code(Null) == Nul
    ensures Code(QuoteBegin) == Tab && Code(QuoteEnd) == LineFeed
  {
    if Code(s) == Code(t) {
      assert TextTokenOfCode(Code(s)) == Some(s) by { assert Code(TextTokenOfCode(Code(s)).value) == Code(s); }
      assert TextTokenOfCode(Code(t)) == Some(t) by { assert Code(TextTokenOfCode(Code(t)).value) == Code(t); }
    }
  }

  /** One unit of rewritten text: a byte copied from the manuscript or a markup sentinel. */
  datatype TextUnit = Raw(b: byte) | Mark(t: TextToken)

  /** The bytes the rewriter copies verbatim: never a control byte, so never a sentinel. */
  predicate IsTextByte(b: byte) { b >= Space && b != Delete }

  predicate ValidUnit(x: TextUnit)
  {
    match x
    case Raw(b) => IsTextByte(b)
    case Mark(t) => t != Null
  }

  predicate AllValid(u: seq<TextUnit>)
  {
    forall i :: 0 <= i < |u| ==> ValidUnit(u[i])
  }

  function UnitByte(x: TextUnit): byte
  {
    match x
    case Raw(b) => b
    case Mark(t) => Code(t)
  }

  /** The bytes a sequence of units occupies in the buffer, one byte per unit. */
  function Encode(u: seq<TextUnit>): (s: seq<byte>)
    ensures |s| == |u|
  {
    if u == [] then [] else Encode(u[..|u| - 1]) + [UnitByte(u[|u| - 1])]
  }

  /** How a renderer reads one byte of token text. */
  function DecodeByte(b: byte): TextUnit
  {
    if 1 <= b <= 10 then Mark(TextTokenOfCode(b).value) else Raw(b)
  }

  function Decode(s: seq<byte>): (u: seq<TextUnit>)
    ensures |u| == |s|
  {
    if s == [] then [] else Decode(s[..|s| - 1]) + [DecodeByte(s[|s| - 1])]
  }

  /** Sentinels are unambiguous in token text: decoding what was written gives back
      exactly the units the rewriter produced. */
  lemma {:induction false} DecodeEncode(u: seq<TextUnit>)
    requires AllValid(u)
    ensures Decode(Encode(u)) == u
  {
    if u != [] {
      var init := u[..|u| - 1];
      assert AllValid(init) by {
        forall i | 0 <= i < |init| ensures ValidUnit(init[i]) { assert init[i] == u[i]; }
      }
      DecodeEncode(init);
      var e := Encode(u);
      assert e[..|e| - 1] == Encode(init);
      assert ValidUnit(u[|u| - 1]);
    }
  }

  /** A byte can appear in token text when it is a sentinel or a copied text byte. */
  predicate IsStoredByte(b: byte) { (1 <= b <= 10) || IsTextByte(b) }

  /** Conversely, every stored byte string is the encoding of valid units. */
  lemma {:induction false} EncodeDecode(s: seq<byte>)
    requires forall i :: 0 <= i < |s| ==> IsStoredByte(s[i])
    ensures AllValid(Decode(s)) && Encode(Decode(s)) == s
  {
    if s != [] {
      var init := s[..|s| - 1];
      EncodeDecode(init);
      var d := Decode(s);
      assert d[..|d| - 1] == Decode(init);
      assert IsStoredByte(s[|s| - 1]);
      forall i | 0 <= i < |d| ensures ValidUnit(d[i]) {
        if i < |d| - 1 { assert d[i] == Decode(init)[i]; }
      }
    }
  }

  /** Emphasis and strong markup exclude each other: at most one is open. */
  datatype Emphasis = Plain | Strong | Emphasised

  /** The inline markup open at some point of a line. */
  datatype Markup = Markup(quoteOpen: bool, emphasis: Emphasis)

  /** The effect of one unit on the open markup; None when the unit closes something that
      is not open or opens something while other emphasis is open. */
  function MarkupStep(m: Markup, x: TextUnit): Option<Markup>
  {
    match x
    case Raw(_) => Some(m)
    case Mark(t) =>
      match t
      case QuoteBegin => if m.quoteOpen then None else Some(m.(quoteOpen := true))
      case QuoteEnd => if m.quoteOpen then Some(m.(quoteOpen := false)) else None
      case StrongBegin => if m.emphasis == Plain then Some(m.(emphasis := Strong)) else None
      case StrongEnd => if m.emphasis == Strong then Some(m.(emphasis := Plain)) else None
      case EmphasisBegin => if m.emphasis == Plain then Some(m.(emphasis := Emphasised)) else None
      case EmphasisEnd => if m.emphasis == Emphasised then Some(m.(emphasis := Plain)) else None
      case _ => Some(m)
  }

  /** The markup open after a sequence of units, starting with nothing open. */
  function MarkupAfter(u: seq<TextUnit>): Option<Markup>
  {
    if u == [] then Some(Markup(false, Plain))
    else
      match MarkupAfter(u[..|u| - 1])
      case None => None
      case Some(m) => MarkupStep(m, u[|u| - 1])
  }

  /** Every quote, strong and emphasis span of the text is opened and closed in turn. */
  predicate Balanced(u: seq<TextUnit>)
  {
    MarkupAfter(u) == Some(Markup(false, Plain))
  }

  /** The number of inline reference sentinels in a text run. */
  function ReferenceCount(u: seq<TextUnit>): nat
  {
    if u == [] then 0
    else ReferenceCount(u[..|u| - 1]) + (if u[|u| - 1] == Mark(InlineReference) then 1 else 0)
  }
}
