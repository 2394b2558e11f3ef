/** The tokeniser: one pass over a NUL-terminated manuscript buffer that classifies each
    line, rewrites its text in place (inline markup becomes one-byte sentinel codes) and
    appends one line token per line. */
module Tokenise {
  import opened Wrappers
  import opened Tokens
  import opened Scanner
  import opened Arabic
  import opened RomanNumeral

  datatype ErrorKind =
    | UnsupportedControlCharacter
    | UnclosedComment
    | ExtraneousSpace
    | TabInText
    | TooManyAsterisks
    | MixedEmphasis
    | TooManyHyphens
    | TrailingSpace
    | LeadingSpace
    | EmptyReference
    | ReferenceFromZero
    | ReferenceNotNumeric
    | UnexpectedReferenceNumber(expected: nat)
    | UnterminatedQuote
    | UnterminatedStrong
    | UnterminatedEmphasis
    | HeadingTooDeep
    | HeadingWithoutSpace
    | RomanNumeralTooLarge
    | EmptyBrackets
    | BracketStartsWithZero
    | ReferenceWithoutSpace
    | EndOfInputInLine
    | NumberTooLong

  /** A fatal tokenising error, reported at the line and column of the current character. */
  datatype TokeniseError = TokeniseError(kind: ErrorKind, line: nat, column: nat)

  function FromScanError(e: ScanError): TokeniseError
  {
    match e
    case ControlCharacter(at) => TokeniseError(UnsupportedControlCharacter, at.line, at.column)
    case UnterminatedComment(at) => TokeniseError(UnclosedComment, at.line, at.column)
  }

  /** No copied space starts the text, and no two copied spaces are adjacent. */
  predicate SpacingOk(u: seq<TextUnit>)
  {
    (u != [] ==> u[0] != Raw(Space))
    && forall i :: 0 < i < |u| ==> !DoubleSpace(u, i)
  }

  /** The units at i - 1 and i are both copied spaces. */
  predicate DoubleSpace(u: seq<TextUnit>, i: nat)
    requires 0 < i < |u|
  {
    u[i - 1] == Raw(Space) && u[i] == Raw(Space)
  }

  /** A token's text run in the rewritten buffer `out`: its `length` units, encoded, at
      offset `text`, followed by a 0 byte; the units are valid text, their markup is
      balanced and their spacing is legal. */
  predicate TextRun(out: seq<byte>, t: LineToken, u: seq<TextUnit>)
  {
    t.text + t.length < |out| && t.length == |u|
    && out[t.text .. t.text + t.length] == Encode(u) && out[t.text + t.length] == Nul
    && AllValid(u) && Balanced(u) && SpacingOk(u)
  }

  /** What every emitted token satisfies, `u` being the units of its text. */
  predicate TokenValid(out: seq<byte>, t: LineToken, u: seq<TextUnit>)
  {
    IsEmitted(t.kind)
    && (HasText(t.kind) ==> TextRun(out, t, u))
    && (!HasText(t.kind) ==> t.length == 0 && u == [])
    && (!IsIndexed(t.kind) ==> t.index == 0)
  }

  predicate TokensValid(out: seq<byte>, lines: seq<LineToken>, texts: seq<seq<TextUnit>>)
  {
    |texts| == |lines| && forall k :: 0 <= k < |lines| ==> TokenValid(out, lines[k], texts[k])
  }

  /** Writing more bytes after the text runs keeps them valid. */
  lemma TokensValidExtend(out: seq<byte>, out2: seq<byte>, lines: seq<LineToken>, texts: seq<seq<TextUnit>>)
    requires TokensValid(out, lines, texts) && out <= out2
    ensures TokensValid(out2, lines, texts)
  {
    forall k | 0 <= k < |lines|
      ensures TokenValid(out2, lines[k], texts[k])
    {
      var t := lines[k];
      if HasText(t.kind) {
        assert out2[t.text .. t.text + t.length] == out[t.text .. t.text + t.length];
        assert out2[t.text + t.length] == out[t.text + t.length];
      }
    }
  }

  /** Closing the last token's run. */
  lemma CloseRun(out: seq<byte>, lines: seq<LineToken>, texts: seq<seq<TextUnit>>, u: seq<TextUnit>)
    requires |lines| > 0 && |texts| == |lines|
    requires lines[|lines| - 1].text <= |out|
    requires TokensValid(out[..lines[|lines| - 1].text], lines[..|lines| - 1], texts[..|texts| - 1])
    requires TokenValid(out, lines[|lines| - 1], u)
    ensures TokensValid(out, lines, texts[..|texts| - 1] + [u])
  {
    var n := |lines| - 1;
    TokensValidExtend(out[..lines[n].text], out, lines[..n], texts[..n]);
    var texts' := texts[..n] + [u];
    forall k | 0 <= k < |lines|
      ensures TokenValid(out, lines[k], texts'[k])
    {
      if k < n {
        assert lines[k] == lines[..n][k] && texts'[k] == texts[..n][k];
      }
    }
  }

  /** A line whose units, then a 0 byte, were written after the completed tokens
      completes the token list. */
  lemma CloseLine(out: seq<byte>, lines: seq<LineToken>, texts: seq<seq<TextUnit>>, units: seq<TextUnit>)
    requires |lines| > 0 && |texts| == |lines|
    requires var t := lines[|lines| - 1];
      IsEmitted(t.kind) && HasText(t.kind) && (!IsIndexed(t.kind) ==> t.index == 0)
      && t.length == |units| && t.text <= |out| && out[t.text..] == Encode(units + [Raw(Nul)])
      && TokensValid(out[..t.text], lines[..|lines| - 1], texts[..|texts| - 1])
    requires AllValid(units) && SpacingOk(units) && Balanced(units)
    ensures TokensValid(out, lines, texts[..|texts| - 1] + [units])
  {
    var t := lines[|lines| - 1];
    TextRunAt(out, t, units);
    CloseRun(out, lines, texts, units);
  }

  lemma TextRunAt(out: seq<byte>, t: LineToken, units: seq<TextUnit>)
    requires t.length == |units| && t.text <= |out| && out[t.text..] == Encode(units + [Raw(Nul)])
    requires AllValid(units) && SpacingOk(units) && Balanced(units)
    ensures TextRun(out, t, units)
  {
    var rest := out[t.text..];
    var e := Encode(units);
    EncodeTerminated(units);
    assert rest == e + [Nul];
    assert |rest| == |units| + 1;
    assert out[t.text .. t.text + |units|] == rest[..|units|] == e;
    assert out[t.text + |units|] == rest[|units|] == Nul;
  }

  lemma EncodeTerminated(units: seq<TextUnit>)
    ensures Encode(units + [Raw(Nul)]) == Encode(units) + [Nul]
  {
    assert (units + [Raw(Nul)])[..|units|] == units;
  }

  /** A rewritten token text decodes back to the units the rewriter produced. */
  lemma TokenTextDecodes(out: seq<byte>, lines: seq<LineToken>, texts: seq<seq<TextUnit>>, k: nat)
    requires TokensValid(out, lines, texts) && k < |lines| && HasText(lines[k].kind)
    ensures lines[k].text + lines[k].length < |out|
    ensures Decode(out[lines[k].text .. lines[k].text + lines[k].length]) == texts[k]
    ensures out[lines[k].text + lines[k].length] == Nul
  {
    assert TokenValid(out, lines[k], texts[k]);
    DecodeEncode(texts[k]);
  }

  /** Appending one unit to a text run. */
  lemma AppendUnit(p: seq<TextUnit>, x: TextUnit)
    ensures Encode(p + [x]) == Encode(p) + [UnitByte(x)]
    ensures MarkupAfter(p + [x]) == if MarkupAfter(p).None? then None else MarkupStep(MarkupAfter(p).value, x)
    ensures ReferenceCount(p + [x]) == ReferenceCount(p) + if x == Mark(InlineReference) then 1 else 0
    ensures AllValid(p) && ValidUnit(x) ==> AllValid(p + [x])
  {
    assert (p + [x])[..|p|] == p;
  }

  /** Writing byte b at offset w keeps the bytes before `from` and extends the run that
      starts at `from` by b. */
  lemma WriteOneByte(before: seq<byte>, after: seq<byte>, w: nat, b: byte, from: nat)
    requires from <= w < |before| && after == before[w := b]
    ensures after[..from] == before[..from]
    ensures after[from .. w + 1] == before[from .. w] + [b]
  {
  }

  /** The effect of `*` (single) or `**` (strong) on the emphasis state: the sentinel it
      writes and the new state, or None when strong and emphasis markup would be mixed. */
  function EmphasisStep(state: Emphasis, strong: bool): Option<(TextToken, Emphasis)>
  {
    if strong then
      match state
      case Plain => Some((StrongBegin, Strong))
      case Strong => Some((StrongEnd, Plain))
      case Emphasised => None
    else
      match state
      case Plain => Some((EmphasisBegin, Emphasised))
      case Emphasised => Some((EmphasisEnd, Plain))
      case Strong => None
  }

  /** The rewriter's emphasis step is exactly the markup discipline of the text model:
      a sentinel is written if and only if it keeps the markup well nested. */
  lemma EmphasisStepMarkup(q: bool, state: Emphasis, strong: bool)
    ensures EmphasisStep(state, strong).Some? ==>
      MarkupStep(Markup(q, state), Mark(EmphasisStep(state, strong).value.0))
        == Some(Markup(q, EmphasisStep(state, strong).value.1))
    ensures EmphasisStep(state, strong).None? <==>
      MarkupStep(Markup(q, state), Mark(if strong then StrongBegin else EmphasisBegin)).None?
      && MarkupStep(Markup(q, state), Mark(if strong then StrongEnd else EmphasisEnd)).None?
  {
  }

  /** The scanner state of the tokeniser. */
  datatype Cursor = Cursor(read: nat, at: Position, next: Position, c: byte, pc: byte)

  /** The cursor after one `get_filtered_char`: the previous character becomes `pc`. */
  function Advance(s: seq<byte>, cur: Cursor): (r: Result<Cursor, TokeniseError>)
    requires Terminated(s) && cur.read < |s|
    ensures r.Ok? ==> cur.read < r.value.read <= |s| && r.value.pc == cur.c && Returnable(r.value.c)
    ensures r.Ok? ==> r.value.c == s[r.value.read - 1] && (r.value.c != Nul ==> r.value.read < |s|)
  {
    match FilterChar(s, cur.read, cur.next)
    case Ok(sc) => Ok(Cursor(sc.next, sc.at, sc.after, sc.c, cur.c))
    case Err(e) => Err(FromScanError(e))
  }

  /** RunLength only looks at the bytes from `from` on. */
  lemma {:induction false} RunLengthAgrees(a: seq<byte>, b: seq<byte>, from: nat, t: byte)
    requires from <= |a| == |b| && t in a[from..]
    requires forall j :: from <= j < |a| ==> a[j] == b[j]
    ensures t in b[from..] && RunLength(a, from, t) == RunLength(b, from, t)
    decreases |a| - from
  {
    assert a[from] == a[from..][0];
    assert b[from] == b[from..][0];
    if a[from] != t {
      assert a[from..] == [a[from]] + a[from + 1..];
      RunLengthAgrees(a, b, from + 1, t);
      assert b[from..] == [b[from]] + b[from + 1..];
    }
  }

  /** The value `arabic_to_int` gives the raw bytes from `from` up to the first
      terminator `t`: None when they overflow the digit buffer. */
  function ArabicValue(s: seq<byte>, from: nat, t: byte): Option<nat>
    requires from <= |s| && t in s[from..]
  {
    var n := RunLength(s, from, t);
    if n > DigitSlots then None else Some(Positional(DigitValues(s[from .. from + n])) % U32)
  }

  /** For up to nine plain digits the value is their decimal value; for more than ten
      bytes there is none. */
  lemma ArabicValueDecimal(s: seq<byte>, from: nat, t: byte)
    requires from <= |s| && t in s[from..]
    ensures var n := RunLength(s, from, t);
      AllDigits(s[from .. from + n]) && n <= 9 ==> ArabicValue(s, from, t) == Some(DecimalValue(s[from .. from + n]))
    ensures RunLength(s, from, t) > DigitSlots <==> ArabicValue(s, from, t).None?
  {
    var n := RunLength(s, from, t);
    if AllDigits(s[from .. from + n]) && n <= 9 {
      NineDigitsExact(s[from .. from + n]);
    }
  }

  /** The cursor after one byte read on its own, one column further on the same line. */
  function ReadPlain(s: seq<byte>, cur: Cursor): Cursor
    requires cur.read < |s|
  {
    Cursor(cur.read + 1, cur.next, Position(cur.next.line, cur.next.column + 1), s[cur.read], cur.c)
  }

  /** The cursor after k bytes read on their own. */
  function ReadPlains(s: seq<byte>, cur: Cursor, k: nat): (r: Cursor)
    requires cur.read + k <= |s|
    ensures r.read == cur.read + k && r.at.line == (if k == 0 then cur.at.line else cur.next.line)
    ensures k > 0 ==> r.c == s[r.read - 1] && r.pc == (if k == 1 then cur.c else s[r.read - 2])
    ensures k == 0 ==> r == cur
    decreases k
  {
    if k == 0 then cur else ReadPlains(s, ReadPlain(s, cur), k - 1)
  }

  /** k + 1 bytes read on their own are k of them, then one more. */
  lemma {:induction false} ReadPlainsStep(s: seq<byte>, cur: Cursor, k: nat)
    requires cur.read + k < |s|
    ensures ReadPlains(s, cur, k + 1) == ReadPlain(s, ReadPlains(s, cur, k))
    decreases k
  {
    if k > 0 {
      ReadPlainsStep(s, ReadPlain(s, cur), k - 1);
    }
  }

  /** The cursor after `set_read_ptr` moves it forward to `ptr`: the column moves by the
      distance, `c` and `pc` are the two bytes before `ptr`, and the line and the next
      position stay. */
  function MovedTo(s: seq<byte>, cur: Cursor, ptr: nat): Cursor
    requires 2 <= ptr <= |s| && cur.read <= ptr
  {
    Cursor(ptr, Position(cur.at.line, cur.at.column + (ptr - cur.read)), cur.next, s[ptr - 1], s[ptr - 2])
  }

  /** Scanning a plain printable ASCII byte other than a slash: no comment, no line change. */
  lemma AdvancePlain(s: seq<byte>, cur: Cursor)
    requires Terminated(s) && cur.read < |s|
    requires Space <= s[cur.read] < Delete && s[cur.read] != Slash
    ensures Advance(s, cur) == Ok(ReadPlain(s, cur))
  {
  }

  /** How far `tokenise_text` has got after one pass of its loop. */
  datatype TextProgress = More(last: byte, quoteLevel: nat, emphasis: Emphasis) | LineDone

  /** One more unit keeps a line's text valid, legally spaced and well nested. */
  lemma ExtendText(p: seq<TextUnit>, x: TextUnit, q: bool, em: Emphasis, q2: bool, em2: Emphasis)
    requires AllValid(p) && SpacingOk(p) && MarkupAfter(p) == Some(Markup(q, em))
    requires ValidUnit(x) && MarkupStep(Markup(q, em), x) == Some(Markup(q2, em2))
    requires x == Raw(Space) ==> p != [] && p[|p| - 1] != Raw(Space)
    ensures AllValid(p + [x]) && SpacingOk(p + [x]) && MarkupAfter(p + [x]) == Some(Markup(q2, em2))
    ensures ReferenceCount(p + [x]) == ReferenceCount(p) + if x == Mark(InlineReference) then 1 else 0
  {
    AppendUnit(p, x);
    var p' := p + [x];
    forall i | 0 < i < |p'|
      ensures !DoubleSpace(p', i)
    {
      if i < |p| {
        assert p'[i - 1] == p[i - 1] && p'[i] == p[i];
        assert !DoubleSpace(p, i);
      }
    }
    assert p' != [] ==> p'[0] != Raw(Space) by {
      if p != [] {
        assert p'[0] == p[0];
      }
    }
  }

  /** An error of `tokenise_text`, reported where the scanner stands. */
  function ErrorAt(kind: ErrorKind, cur: Cursor): TokeniseError
  {
    TokeniseError(kind, cur.at.line, cur.at.column)
  }

  /** A scanner state the text rewriter can continue from: the current character is one
      the scanner returns, and only the terminator is read at the end of the buffer. */
  predicate Scannable(s: seq<byte>, cur: Cursor)
  {
    Terminated(s) && cur.read <= |s| && Returnable(cur.c) && (cur.c != Nul ==> cur.read < |s|)
  }

  /** The variables of the loop of `tokenise_text`: the scanner, whether a quote is open,
      the open emphasis, and the chapter's count of inline references. */
  datatype TextState = TextState(cur: Cursor, quoteOpen: bool, emphasis: Emphasis, refs: nat)

  /** The do-while loop of the inline reference branch: from a character that is not `]`,
      every character must be a digit up to the closing `]`, where the scanner stops. */
  function ReferenceDigits(s: seq<byte>, cur: Cursor): (r: Result<Cursor, TokeniseError>)
    requires Scannable(s, cur)
    ensures r.Ok? ==> Scannable(s, r.value) && r.value.c == CloseBracket && cur.read < r.value.read
    ensures r.Ok? ==> s[r.value.read - 1] == CloseBracket
    decreases |s| - cur.read
  {
    if cur.c < Digit0 || cur.c > Digit9 then Err(ErrorAt(ReferenceNotNumeric, cur))
    else
      var next :- Advance(s, cur);
      if next.c == CloseBracket then Ok(next) else ReferenceDigits(s, next)
  }

  /** The scanning part of the inline reference branch, at `[`: the characters up to the
      closing `]` must be digits, the first neither `]` nor 0. The scanner at `]`. */
  function ReferenceScan(s: seq<byte>, cur: Cursor): (r: Result<Cursor, TokeniseError>)
    requires Scannable(s, cur) && cur.c == OpenBracket
    ensures r.Ok? ==> Scannable(s, r.value) && r.value.c == CloseBracket && cur.read < r.value.read
    ensures r.Ok? ==> s[r.value.read - 1] == CloseBracket
  {
    var first :- Advance(s, cur);
    if first.c == CloseBracket then Err(ErrorAt(EmptyReference, first))
    else if first.c == Digit0 then Err(ErrorAt(ReferenceFromZero, first))
    else ReferenceDigits(s, first)
  }

  /** How a reference whose brackets hold `index` ends, `refs` references having come
      before it in the chapter. */
  function ReferenceNumbered(index: Option<nat>, close: Cursor, refs: nat): (r: Result<(Cursor, nat), TokeniseError>)
    ensures r.Ok? <==> index == Some(refs + 1)
    ensures r.Ok? ==> r.value == (close, refs + 1)
    ensures r.Err? ==> r.error.line == close.at.line && r.error.column == close.at.column
  {
    match index
    case None => Err(ErrorAt(NumberTooLong, close))
    case Some(n) =>
      if n != refs + 1 then Err(ErrorAt(UnexpectedReferenceNumber(refs + 1), close))
      else Ok((close, refs + 1))
  }

  /** The inline reference branch of `tokenise_text`, at `[` with `refs` references seen
      before: the digits up to `]` must spell the next reference number. The scanner at
      the closing `]`, and the new count. */
  function ReferenceSpec(s: seq<byte>, cur: Cursor, refs: nat): (r: Result<(Cursor, nat), TokeniseError>)
    requires Scannable(s, cur) && cur.c == OpenBracket
    ensures r.Ok? ==> Scannable(s, r.value.0) && r.value.0.c == CloseBracket && cur.read < r.value.0.read
    ensures r.Ok? ==> r.value.1 == refs + 1
  {
    var close :- ReferenceScan(s, cur);
    assert s[cur.read..][close.read - 1 - cur.read] == CloseBracket;
    ReferenceNumbered(ArabicValue(s, cur.read, CloseBracket), close, refs)
  }

  /** `check_dash`, `check_newline` and the plain copy, for the current character: the
      unit written and the scanner after it, or None at the line feed that ends the line. */
  function PlainUnit(s: seq<byte>, cur: Cursor): (r: Result<Option<(TextUnit, Cursor)>, TokeniseError>)
    requires Scannable(s, cur)
    ensures r.Ok? && r.value.Some? ==> Scannable(s, r.value.value.1) && r.value.value.1.c != Nul
    ensures r.Ok? && r.value.Some? ==> cur.read <= r.value.value.1.read
    ensures r.Ok? && r.value.None? ==> cur.c == LineFeed
  {
    var ch := cur.c;
    if ch == Hyphen && s[cur.read] == Hyphen then
      var dash :- DashUnit(s, cur);
      Ok(Some(dash))
    else if ch == LineFeed then
      if s[cur.read] == Space then Err(ErrorAt(TrailingSpace, cur)) else Ok(None)
    else if ch == Nul then Err(ErrorAt(EndOfInputInLine, cur))
    else Ok(Some((Raw(ch), cur)))
  }

  /** `check_dash` at two hyphens: an en dash, or an em dash at three; four is an error.
      The dash, and the scanner at its last hyphen. */
  function DashUnit(s: seq<byte>, cur: Cursor): (r: Result<(TextUnit, Cursor), TokeniseError>)
    requires Scannable(s, cur) && cur.c == Hyphen && s[cur.read] == Hyphen
    ensures r.Ok? ==> Scannable(s, r.value.1) && r.value.1.c == Hyphen && cur.read < r.value.1.read
    ensures r.Ok? ==> r.value.0 in {Mark(EnDash), Mark(EmDash)}
  {
    AdvancePlain(s, cur);
    var second := Advance(s, cur).value;
    if s[cur.read + 1] == Hyphen then
      if s[cur.read + 2] == Hyphen then Err(ErrorAt(TooManyHyphens, cur))
      else
        AdvancePlain(s, second);
        Ok((Mark(EmDash), Advance(s, second).value))
    else
      Ok((Mark(EnDash), second))
  }


  /** `check_emphasis`, then the branches of `PlainUnit`: the unit written, the scanner
      after it and the new emphasis state. */
  function MarkUnit(s: seq<byte>, cur: Cursor, em: Emphasis): (r: Result<Option<(TextUnit, Cursor, Emphasis)>, TokeniseError>)
    requires Scannable(s, cur)
    ensures r.Ok? && r.value.Some? ==> Scannable(s, r.value.value.1) && r.value.value.1.c != Nul
    ensures r.Ok? && r.value.Some? ==> cur.read <= r.value.value.1.read
    ensures r.Ok? && r.value.None? ==> cur.c == LineFeed
  {
    if cur.c == Asterisk then
      var strong := s[cur.read] == Asterisk;
      if strong && s[cur.read + 1] == Asterisk then Err(ErrorAt(TooManyAsterisks, cur))
      else
        match EmphasisStep(em, strong)
        case None => Err(ErrorAt(MixedEmphasis, cur))
        case Some(step) =>
          if strong then
            AdvancePlain(s, cur);
            Ok(Some((Mark(step.0), Advance(s, cur).value, step.1)))
          else
            Ok(Some((Mark(step.0), cur, step.1)))
    else
      var plain :- PlainUnit(s, cur);
      if plain.None? then Ok(None) else Ok(Some((plain.value.0, plain.value.1, em)))
  }

  /** `check_space`, then the branches of `MarkUnit`. */
  function CharUnit(s: seq<byte>, cur: Cursor, em: Emphasis): (r: Result<Option<(TextUnit, Cursor, Emphasis)>, TokeniseError>)
    requires Scannable(s, cur)
    ensures r.Ok? && r.value.Some? ==> Scannable(s, r.value.value.1) && r.value.value.1.c != Nul
    ensures r.Ok? && r.value.Some? ==> cur.read <= r.value.value.1.read
    ensures r.Ok? && r.value.None? ==> cur.c == LineFeed
  {
    if cur.c == Space then
      if cur.pc == Space then Err(ErrorAt(ExtraneousSpace, cur)) else Ok(Some((Raw(Space), cur, em)))
    else if cur.c == Tab then Err(ErrorAt(TabInText, cur))
    else MarkUnit(s, cur, em)
  }

  /** The body of the loop of `tokenise_text` up to its `get_filtered_char`: the unit the
      current character is rewritten as and the loop's variables after it, or None at
      the line feed that ends the line. */
  function UnitSpec(s: seq<byte>, st: TextState): (r: Result<Option<(TextUnit, TextState)>, TokeniseError>)
    requires Scannable(s, st.cur)
    ensures r.Ok? && r.value.Some? ==> Scannable(s, r.value.value.1.cur) && r.value.value.1.cur.c != Nul
    ensures r.Ok? && r.value.Some? ==> st.cur.read <= r.value.value.1.cur.read
    ensures r.Ok? && r.value.None? ==> st.cur.c == LineFeed
  {
    var cur := st.cur;
    if cur.c == DoubleQuote then
      Ok(Some((Mark(if st.quoteOpen then QuoteEnd else QuoteBegin), st.(quoteOpen := !st.quoteOpen))))
    else if cur.c == OpenBracket then
      var reference :- ReferenceSpec(s, cur, st.refs);
      Ok(Some((Mark(InlineReference), st.(cur := reference.0, refs := reference.1))))
    else
      var step :- CharUnit(s, cur, st.emphasis);
      if step.None? then Ok(None)
      else Ok(Some((step.value.0, st.(cur := step.value.1, emphasis := step.value.2))))
  }

  /** One whole pass of the loop of `tokenise_text`, with the `get_filtered_char` that
      ends it. */
  function StepSpec(s: seq<byte>, st: TextState): (r: Result<Option<(TextUnit, TextState)>, TokeniseError>)
    requires Scannable(s, st.cur)
    ensures r.Ok? && r.value.Some? ==> Scannable(s, r.value.value.1.cur) && st.cur.read < r.value.value.1.cur.read
    ensures r.Ok? && r.value.None? ==> st.cur.c == LineFeed
  {
    var unit :- UnitSpec(s, st);
    if unit.None? then Ok(None)
    else
      var next :- Advance(s, unit.value.1.cur);
      Ok(Some((unit.value.0, unit.value.1.(cur := next))))
  }

  /** The loop of `tokenise_text` from the given state: the units it writes up to the
      line feed, and its variables there. */
  function LineSpec(s: seq<byte>, st: TextState): (r: Result<(seq<TextUnit>, TextState), TokeniseError>)
    requires Scannable(s, st.cur)
    ensures r.Ok? ==> Scannable(s, r.value.1.cur) && r.value.1.cur.c == LineFeed
    ensures r.Ok? ==> st.cur.read <= r.value.1.cur.read
    decreases |s| - st.cur.read
  {
    var step :- StepSpec(s, st);
    if step.None? then Ok(([], st))
    else
      var rest :- LineSpec(s, step.value.1);
      Ok(([step.value.0] + rest.0, rest.1))
  }

  /** `tokenise_text` from the line's first character, with `refs` references seen
      before in the chapter: the units of the line's text, the scanner at the first
      character of the next line, and the new count. */
  function TextSpec(s: seq<byte>, cur: Cursor, refs: nat): (r: Result<(seq<TextUnit>, Cursor, nat), TokeniseError>)
    requires Scannable(s, cur)
    ensures cur.c == Space ==> r == Err(ErrorAt(LeadingSpace, cur))
    ensures r.Ok? ==> Scannable(s, r.value.1) && cur.read < r.value.1.read
  {
    if cur.c == Space then Err(ErrorAt(LeadingSpace, cur))
    else
      var line :- LineSpec(s, TextState(cur, false, Plain, refs));
      TextEnd(s, line.0, line.1)
  }

  /** The metadata loop of `tokenise_bracket` from `cur`: characters are read and dropped
      until a line feed is read. The character in hand is dropped unexamined; meeting the
      terminator first is an error at its position. */
  function LineFeedSpec(s: seq<byte>, cur: Cursor): (r: Result<Cursor, TokeniseError>)
    requires Scannable(s, cur)
    ensures r.Ok? ==> Scannable(s, r.value) && cur.read < r.value.read && r.value.c == LineFeed
    decreases |s| - cur.read
  {
    if cur.c == Nul then Err(TokeniseError(EndOfInputInLine, cur.at.line, cur.at.column))
    else
      var next :- Advance(s, cur);
      if next.c == LineFeed then Ok(next) else LineFeedSpec(s, next)
  }

  /** The metadata branch of `tokenise_bracket` from `cur`: the loop, then the character
      after the line feed is read. */
  function SkipSpec(s: seq<byte>, cur: Cursor): (r: Result<Cursor, TokeniseError>)
    requires Scannable(s, cur)
    ensures r.Ok? ==> Scannable(s, r.value) && cur.read < r.value.read && r.value.pc == LineFeed
  {
    var lf :- LineFeedSpec(s, cur);
    Advance(s, lf)
  }

  /** `tokenise_text(ctx, get_filtered_char(ctx))`, the text of a line whose marker ends
      at `cur`: one character is read, and the text starts there. */
  function TextAfter(s: seq<byte>, cur: Cursor, refs: nat): (r: Result<(seq<TextUnit>, Cursor, nat), TokeniseError>)
    requires Scannable(s, cur) && cur.c != Nul
    ensures r.Ok? ==> Scannable(s, r.value.1) && cur.read < r.value.1.read
  {
    var start :- Advance(s, cur);
    TextSpec(s, start, refs)
  }

  /** `tokenise_text` after a first character other than a space: the loop, then its
      end. */
  lemma TextSpecOfLine(s: seq<byte>, cur: Cursor, refs: nat)
    requires Scannable(s, cur) && cur.c != Space
    ensures var line := LineSpec(s, TextState(cur, false, Plain, refs));
      (line.Err? ==> TextSpec(s, cur, refs) == Err(line.error))
      && (line.Ok? ==> TextSpec(s, cur, refs) == TextEnd(s, line.value.0, line.value.1))
  {
  }

  /** The end of `tokenise_text`, once the line's units `u` are written and the line
      ended in state `end`: quotes and emphasis must be closed, then the next character
      is read. */
  function TextEnd(s: seq<byte>, u: seq<TextUnit>, end: TextState): (r: Result<(seq<TextUnit>, Cursor, nat), TokeniseError>)
    requires Scannable(s, end.cur) && end.cur.c == LineFeed
    ensures r.Ok? ==> !end.quoteOpen && end.emphasis.Plain? && r.value.0 == u && r.value.2 == end.refs
    ensures r.Ok? ==> Scannable(s, r.value.1) && end.cur.read < r.value.1.read
  {
    if end.quoteOpen then Err(ErrorAt(UnterminatedQuote, end.cur))
    else if end.emphasis == Strong then Err(ErrorAt(UnterminatedStrong, end.cur))
    else if end.emphasis == Emphasised then Err(ErrorAt(UnterminatedEmphasis, end.cur))
    else
      var next :- Advance(s, end.cur);
      Ok((u, next, end.refs))
  }

  /** `[]` and a number starting with 0 are rejected before any digit is read. */
  lemma ReferenceSpecRejects(s: seq<byte>, cur: Cursor, refs: nat)
    requires Scannable(s, cur) && cur.c == OpenBracket
    ensures s[cur.read] == CloseBracket ==>
      ReferenceSpec(s, cur, refs).Err? && ReferenceSpec(s, cur, refs).error.kind == EmptyReference
    ensures s[cur.read] == Digit0 ==>
      ReferenceSpec(s, cur, refs).Err? && ReferenceSpec(s, cur, refs).error.kind == ReferenceFromZero
  {
    if s[cur.read] == CloseBracket || s[cur.read] == Digit0 {
      AdvancePlain(s, cur);
    }
  }

  /** Once the brackets are scanned, the reference stands or falls by its number. */
  lemma ReferenceSpecNumber(s: seq<byte>, cur: Cursor, close: Cursor, refs: nat)
    requires Scannable(s, cur) && cur.c == OpenBracket && ReferenceScan(s, cur) == Ok(close)
    ensures CloseBracket in s[cur.read..]
    ensures ReferenceSpec(s, cur, refs) == ReferenceNumbered(ArabicValue(s, cur.read, CloseBracket), close, refs)
  {
    assert s[cur.read..][close.read - 1 - cur.read] == CloseBracket;
  }

  /** Nothing written before a run changes nothing. */
  lemma PrefixedEmpty(r: Result<(seq<TextUnit>, TextState), TokeniseError>)
    ensures Prefixed([], r) == r
  {
    if r.Ok? {
      assert [] + r.value.0 == r.value.0;
    }
  }

  /** One pass of the loop, seen from the whole run: an error ends the run, the line
      feed ends it with nothing more written, and a written unit is prefixed to the rest. */
  lemma LineSpecStep(s: seq<byte>, st: TextState, p: seq<TextUnit>)
    requires Scannable(s, st.cur)
    ensures StepSpec(s, st).Err? ==> Prefixed(p, LineSpec(s, st)) == Err(StepSpec(s, st).error)
    ensures StepSpec(s, st) == Ok(None) ==> Prefixed(p, LineSpec(s, st)) == Ok((p, st))
    ensures StepSpec(s, st).Ok? && StepSpec(s, st).value.Some? ==>
      var (x, st') := StepSpec(s, st).value.value;
      Prefixed(p, LineSpec(s, st)) == Prefixed(p + [x], LineSpec(s, st'))
  {
    if StepSpec(s, st).Ok? && StepSpec(s, st).value.Some? {
      var (x, st') := StepSpec(s, st).value.value;
      if LineSpec(s, st').Ok? {
        Reassociate(p, [x], LineSpec(s, st').value.0);
      }
    } else if StepSpec(s, st) == Ok(None) {
      assert p + [] == p;
    }
  }

  /** The units written before a run of the loop, prefixed to what the run writes. */
  function Prefixed(p: seq<TextUnit>, r: Result<(seq<TextUnit>, TextState), TokeniseError>): Result<(seq<TextUnit>, TextState), TokeniseError>
  {
    match r
    case Ok(v) => Ok((p + v.0, v.1))
    case Err(e) => Err(e)
  }

  /** Each pass of the loop writes a valid unit, moves the open markup exactly as the
      markup discipline of the text model says, counts the reference it writes, and
      copies a space only after a character that is not one. */
  lemma UnitSpecStep(s: seq<byte>, st: TextState)
    requires Scannable(s, st.cur) && UnitSpec(s, st).Ok? && UnitSpec(s, st).value.Some?
    ensures var (x, st') := UnitSpec(s, st).value.value;
      ValidUnit(x)
      && MarkupStep(Markup(st.quoteOpen, st.emphasis), x) == Some(Markup(st'.quoteOpen, st'.emphasis))
      && st'.refs == st.refs + (if x == Mark(InlineReference) then 1 else 0)
      && (x == Raw(Space) ==> st.cur.c == Space && st.cur.pc != Space && st'.cur.c == Space)
  {
    var cur := st.cur;
    if cur.c != DoubleQuote && cur.c != OpenBracket && cur.c != Space && cur.c != Tab && cur.c == Asterisk {
      EmphasisStepMarkup(st.quoteOpen, st.emphasis, s[cur.read] == Asterisk);
    }
  }

  /** What holds of the units `p` the loop of `tokenise_text` has written when it
      reaches state `st`: they are valid, legally spaced and well nested with the markup
      of `st` left open, and the spacing check will refuse a space that would start the
      text or follow a copied space. */
  predicate Written(p: seq<TextUnit>, st: TextState)
  {
    AllValid(p) && SpacingOk(p) && MarkupAfter(p) == Some(Markup(st.quoteOpen, st.emphasis))
    && (p == [] ==> st.cur.c != Space)
    && (p != [] && p[|p| - 1] == Raw(Space) ==> st.cur.pc == Space)
  }

  /** A whole pass of the loop keeps `Written`, and counts the reference it writes. */
  lemma StepKeepsWritten(s: seq<byte>, st: TextState, p: seq<TextUnit>)
    requires Scannable(s, st.cur) && StepSpec(s, st).Ok? && StepSpec(s, st).value.Some?
    requires Written(p, st)
    ensures var (x, st') := StepSpec(s, st).value.value;
      Written(p + [x], st') && ReferenceCount(p + [x]) + st.refs == ReferenceCount(p) + st'.refs
  {
    var unit := UnitSpec(s, st).value.value;
    UnitSpecStep(s, st);
    ExtendText(p, unit.0, st.quoteOpen, st.emphasis, unit.1.quoteOpen, unit.1.emphasis);
  }

  /** The text the loop writes from any state keeps `Written`, and the count of
      references grows by the references it writes. */
  lemma {:induction false} LineSpecShape(s: seq<byte>, st: TextState, p: seq<TextUnit>)
    requires Scannable(s, st.cur) && LineSpec(s, st).Ok? && Written(p, st)
    ensures var (u, fin) := LineSpec(s, st).value;
      Written(p + u, fin) && ReferenceCount(p + u) + st.refs == ReferenceCount(p) + fin.refs
    decreases |s| - st.cur.read
  {
    var step := StepSpec(s, st).value;
    if step.None? {
      assert p + [] == p;
    } else {
      var (x, st') := step.value;
      StepKeepsWritten(s, st, p);
      LineSpecShape(s, st', p + [x]);
      var rest := LineSpec(s, st').value;
      Reassociate(p, [x], rest.0);
    }
  }

  /** Concatenation regrouped, kept apart from the contexts that need it. */
  lemma Reassociate(a: seq<TextUnit>, b: seq<TextUnit>, c: seq<TextUnit>)
    ensures a + (b + c) == (a + b) + c
  {
  }

  /** The loop started on a line's first character, with nothing written and nothing
      open, writes a text that keeps `Written` and counts its references. */
  lemma LineSpecFromStart(s: seq<byte>, cur: Cursor, refs: nat)
    requires Scannable(s, cur) && cur.c != Space && LineSpec(s, TextState(cur, false, Plain, refs)).Ok?
    ensures var (u, fin) := LineSpec(s, TextState(cur, false, Plain, refs)).value;
      Written(u, fin) && fin.refs == refs + ReferenceCount(u)
  {
    var start := TextState(cur, false, Plain, refs);
    LineSpecShape(s, start, []);
    var u := LineSpec(s, start).value.0;
    assert [] + u == u;
  }

  /** Whatever `tokenise_text` accepts is a complete text: valid units, legal spacing,
      every quote, strong and emphasis span closed, and one reference counted per
      reference sentinel. */
  lemma TextSpecWellFormed(s: seq<byte>, cur: Cursor, refs: nat)
    requires Scannable(s, cur) && TextSpec(s, cur, refs).Ok?
    ensures var (u, _, refs') := TextSpec(s, cur, refs).value;
      AllValid(u) && SpacingOk(u) && Balanced(u) && refs' == refs + ReferenceCount(u)
  {
    LineSpecFromStart(s, cur, refs);
  }

  /** The three end-of-line errors of `tokenise_text` are exactly the markup the line's
      units leave open: an open quote first, then open strong, then open emphasis. */
  lemma TextSpecUnterminated(s: seq<byte>, cur: Cursor, refs: nat)
    requires Scannable(s, cur) && cur.c != Space
    requires LineSpec(s, TextState(cur, false, Plain, refs)).Ok?
    ensures var (u, fin) := LineSpec(s, TextState(cur, false, Plain, refs)).value;
      var r := TextSpec(s, cur, refs);
      MarkupAfter(u).Some?
      && (r == Err(ErrorAt(UnterminatedQuote, fin.cur)) <==> MarkupAfter(u).value.quoteOpen)
      && (r == Err(ErrorAt(UnterminatedStrong, fin.cur)) <==>
            !MarkupAfter(u).value.quoteOpen && MarkupAfter(u).value.emphasis == Strong)
      && (r == Err(ErrorAt(UnterminatedEmphasis, fin.cur)) <==>
            !MarkupAfter(u).value.quoteOpen && MarkupAfter(u).value.emphasis == Emphasised)
      && (Balanced(u) && Advance(s, fin.cur).Ok? ==> r == Ok((u, Advance(s, fin.cur).value, fin.refs)))
  {
    LineSpecFromStart(s, cur, refs);
  }

  /** The end of the run of ASCII digits that starts at i. */
  function DigitEnd(s: seq<byte>, i: nat): (e: nat)
    requires Terminated(s) && i < |s|
    ensures i <= e < |s| && !IsDigit(s[e])
    ensures forall j :: i <= j < e ==> IsDigit(s[j])
    decreases |s| - i
  {
    if IsDigit(s[i]) then DigitEnd(s, i + 1) else i
  }

  /** The end of the run of numeral letters `I`, `V`, `X` that starts at i. */
  function RomanEnd(s: seq<byte>, i: nat): (e: nat)
    requires Terminated(s) && i < |s|
    ensures i <= e < |s| && !IsRomanByte(s[e])
    decreases |s| - i
  {
    if IsRomanByte(s[i]) then RomanEnd(s, i + 1) else i
  }

  /** Every byte before the end of the run is a numeral letter. */
  lemma {:induction false} RomanRun(s: seq<byte>, i: nat)
    requires Terminated(s) && i < |s|
    ensures forall j :: i <= j < RomanEnd(s, i) ==> IsRomanByte(s[j])
    decreases |s| - i
  {
    if IsRomanByte(s[i]) {
      RomanRun(s, i + 1);
    }
  }

  /** The end of the run of `#` that starts at i. */
  function HashEnd(s: seq<byte>, i: nat): (e: nat)
    requires Terminated(s) && i < |s|
    ensures i <= e < |s| && s[e] != Hash
    ensures forall j :: i <= j < e ==> s[j] == Hash
    decreases |s| - i
  {
    if s[i] == Hash then HashEnd(s, i + 1) else i
  }

  /** The digits from a first digit at i: for up to nine of them, the value
      `arabic_to_int` computes is the decimal number they spell. */
  lemma DigitsValue(s: seq<byte>, i: nat)
    requires Terminated(s) && i < |s| && IsDigit(s[i])
    ensures AllDigits(s[i .. DigitEnd(s, i + 1)])
    ensures DigitEnd(s, i + 1) - i <= 9
      ==> Positional(DigitValues(s[i .. DigitEnd(s, i + 1)])) % U32 == DecimalValue(s[i .. DigitEnd(s, i + 1)])
  {
    var d := s[i .. DigitEnd(s, i + 1)];
    assert forall k :: 0 <= k < |d| ==> d[k] == s[i + k];
    if |d| <= 9 {
      NineDigitsExact(d);
    }
  }

  /** The kinds of line the classifier of `tokenise` can produce from a line's first
      character: a list marker only yields its list kind, or a paragraph when the marker
      is incomplete. */
  predicate KindFor(first: byte, kind: LineTokenType)
  {
    if first == OpenBracket then kind == Reference
    else if first == Tab then kind == BlockNewline || kind == BlockParagraph
    else if first == LineFeed then kind == Newline
    else if first == Hash then IsHeading(kind)
    else if first == Asterisk then kind == UnorderedList || kind == Paragraph
    else if Digit1 <= first <= Digit9 then kind == OrderedListArabic || kind == Paragraph
    else if LowerA <= first <= LowerZ then kind == OrderedListLetter || kind == Paragraph
    else if IsRomanByte(first) then kind == OrderedListRoman || kind == Paragraph
    else kind == Paragraph
  }

  /** The end of a line marker at offset p: the terminator `t` (`.` or `]`), then a space. */
  predicate MarkerEnd(s: seq<byte>, p: nat, t: byte)
  {
    p + 1 < |s| && s[p] == t && s[p + 1] == Space
  }

  /** A numeral marker: the numeral letters from i, then ". ", then the rest of the buffer. */
  lemma RomanMarker(s: seq<byte>, i: nat, p: nat)
    requires Terminated(s) && i + 1 < |s| && IsRomanByte(s[i])
    requires p == RomanEnd(s, i + 1) && MarkerEnd(s, p, Period)
    ensures AllRomanBytes(s[i .. p])
    ensures s[i..] == s[i .. p] + [Period, Space] + s[p + 2..]
  {
    var n := s[i .. p];
    RomanRun(s, i + 1);
    forall k | 0 <= k < |n|
      ensures IsRomanByte(n[k])
    {
      assert n[k] == s[i + k];
    }
  }

  /** RunLength over a run whose end is known. */
  lemma {:induction false} RunLengthOfRun(s: seq<byte>, from: nat, p: nat, t: byte)
    requires from <= p < |s| && s[p] == t
    requires forall j :: from <= j < p ==> s[j] != t
    ensures t in s[from..] && RunLength(s, from, t) == p - from
    decreases p - from
  {
    assert s[from..][p - from] == t;
    if from < p {
      RunLengthOfRun(s, from + 1, p, t);
    }
  }

  /** Scanning a byte that cannot open a comment returns it, a CR LF pair returning LF. */
  lemma AdvanceNoComment(s: seq<byte>, cur: Cursor)
    requires Terminated(s) && cur.read < |s| && s[cur.read] != Slash
    ensures Advance(s, cur).Ok? ==>
      Advance(s, cur).value.c == if s[cur.read] == CarriageReturn then LineFeed else s[cur.read]
  {
  }

  /** Inside a heading's run of `#` each scan returns the next `#`; at its end, if no
      comment can start there, the scan returns a byte other than `#`, a space exactly
      when the run is followed by one. */
  lemma HashRunStep(s: seq<byte>, cur: Cursor, from: nat)
    requires Terminated(s) && from < |s| && from <= cur.read <= HashEnd(s, from)
    requires s[HashEnd(s, from)] != Slash
    ensures var e := HashEnd(s, from);
      (cur.read < e || s[e] == Space ==> Advance(s, cur).Ok?)
      && (Advance(s, cur).Ok? && cur.read < e ==> Advance(s, cur).value.c == Hash && Advance(s, cur).value.read == cur.read + 1)
      && (Advance(s, cur).Ok? && cur.read == e ==>
            Advance(s, cur).value.c != Hash && (Advance(s, cur).value.c == Space <==> s[e] == Space))
  {
    var e := HashEnd(s, from);
    if cur.read < e || s[e] == Space {
      AdvancePlain(s, cur);
    } else {
      AdvanceNoComment(s, cur);
    }
  }
  /** The loop of `tokenise_heading` from a `#` at `cur`, `depth` of them counted after
      the first: characters are read while they are `#`. The result is the count and the
      cursor on the first other character, or the error of a read. */
  function HashLoop(s: seq<byte>, cur: Cursor, depth: nat): (r: Result<(nat, Cursor), TokeniseError>)
    requires Scannable(s, cur) && cur.c != Nul
    ensures r.Ok? ==> Scannable(s, r.value.1) && r.value.1.c != Hash && cur.read < r.value.1.read && depth <= r.value.0
    decreases |s| - cur.read
  {
    var next :- Advance(s, cur);
    if next.c == Hash then HashLoop(s, next, depth + 1) else Ok((depth, next))
  }

  /** With no comment right after the run of `#` from `start`, the loop reads the run
      plainly: the count is the run's length after the first `#`, and the character after
      the run is read as `Advance` says. */
  lemma {:induction false} HashLoopPlain(s: seq<byte>, start: Cursor, k: nat)
    requires Scannable(s, start) && start.c == Hash && start.read < |s|
    requires s[HashEnd(s, start.read)] != Slash && start.read + k <= HashEnd(s, start.read)
    ensures var e := HashEnd(s, start.read);
      var next := Advance(s, ReadPlains(s, start, e - start.read));
      HashLoop(s, ReadPlains(s, start, k), k) == if next.Err? then Err(next.error) else Ok((e - start.read, next.value))
    decreases HashEnd(s, start.read) - start.read - k
  {
    var e := HashEnd(s, start.read);
    var cur := ReadPlains(s, start, k);
    HashRunStep(s, cur, start.read);
    if start.read + k < e {
      AdvancePlain(s, cur);
      ReadPlainsStep(s, start, k);
      HashLoopPlain(s, start, k + 1);
    }
  }

  /** The same from the run's first `#`: the count is the run's length after it, the
      character after the run is a space exactly when the byte there is one, and then the
      scanner has read the run and the space and nothing else. */
  lemma HashLoopNoComment(s: seq<byte>, start: Cursor)
    requires Scannable(s, start) && start.c == Hash && start.read < |s|
    requires s[HashEnd(s, start.read)] != Slash
    ensures var e := HashEnd(s, start.read);
      var run := HashLoop(s, start, 0);
      (run.Ok? ==> run.value.0 == e - start.read && (run.value.1.c == Space <==> s[e] == Space))
      && (s[e] == Space ==> run == Ok((e - start.read, ReadPlains(s, start, e + 1 - start.read))))
  {
    var e := HashEnd(s, start.read);
    var at := ReadPlains(s, start, e - start.read);
    assert ReadPlains(s, start, 0) == start;
    HashLoopPlain(s, start, 0);
    if s[e] == Space {
      AdvancePlain(s, at);
      ReadPlainsStep(s, start, e - start.read);
    } else {
      AdvanceNoComment(s, at);
    }
  }


  class Tokeniser {
    /** The manuscript, rewritten in place. */
    const data: array<byte>
    ghost const input: seq<byte>
    var read: nat
    var write: nat
    var lines: seq<LineToken>
    /** The text units of each token, and those written so far for the open line. */
    ghost var texts: seq<seq<TextUnit>>
    ghost var pending: seq<TextUnit>
    var line: nat
    var column: nat
    var nextLine: nat
    var nextColumn: nat
    var c: byte
    var pc: byte
    var refCount: nat

    ghost function Cur(): Cursor
      reads this
    {
      Cursor(read, Position(line, column), Position(nextLine, nextColumn), c, pc)
    }

    /** Everything but the scanner state. */
    ghost function Out(): (seq<LineToken>, seq<seq<TextUnit>>, seq<TextUnit>, nat, nat)
      reads this
    {
      (lines, texts, pending, write, refCount)
    }

    /** The buffer invariant: bytes from the write index on are still the manuscript's,
        and the write index never passes the read index. */
    ghost predicate Buffer()
      reads this`read, this`write, this`lines, this`texts, data
    {
      |input| == data.Length && Terminated(input)
      && write <= read <= data.Length
      && (forall j :: write <= j < data.Length ==> data[j] == input[j])
      && |texts| == |lines|
    }

    ghost predicate Valid()
      reads this`read, this`write, this`lines, this`texts, this`c, data
    {
      Buffer() && Returnable(c) && (c != Nul ==> read < data.Length)
    }

    /** Between lines: every token is complete. */
    ghost predicate Closed()
      reads this`read, this`write, this`lines, this`texts, this`pending, this`c, data
    {
      Valid() && ClosedText()
    }

    ghost predicate ClosedText()
      reads this`write, this`lines, this`texts, this`pending, data
    {
      pending == [] && write <= data.Length && TokensValid(data[..write], lines, texts)
    }

    /** Inside a line: the last token's text is being written. */
    ghost predicate OpenLine()
      reads this`read, this`write, this`lines, this`texts, this`pending, this`c, data
    {
      Valid() && OpenText()
    }

    ghost predicate OpenText()
      reads this`write, this`lines, this`texts, this`pending, data
    {
      |lines| > 0 && |texts| == |lines|
      && var t := lines[|lines| - 1];
      HasText(t.kind) && (!IsIndexed(t.kind) ==> t.index == 0)
      && t.text + |pending| == write <= data.Length && data[t.text .. write] == Encode(pending)
      && texts[|texts| - 1] == []
      && TokensValid(data[..t.text], lines[..|lines| - 1], texts[..|texts| - 1])
    }

    constructor (buffer: array<byte>)
      requires Terminated(buffer[..])
      ensures data == buffer && input == buffer[..]
      ensures read == 0 && write == 0 && lines == [] && texts == [] && pending == []
      ensures nextLine == 1 && nextColumn == 1 && c == Nul && refCount == 0
      ensures Closed()
    {
      data := buffer;
      input := buffer[..];
      read, write := 0, 0;
      lines, texts, pending := [], [], [];
      line, column, nextLine, nextColumn := 0, 0, 1, 1;
      c, pc := Nul, Nul;
      refCount := 0;
    }

    /** `get_char`. */
    method GetChar() returns (r: Result<byte, TokeniseError>)
      requires Buffer() && read < data.Length
      modifies this
      ensures var res := ScanChar(input, old(read), old(Position(nextLine, nextColumn)));
        (res.Ok? <==> r.Ok?)
        && (res.Ok? ==> (r.value == res.value.c && read == res.value.next
              && Position(line, column) == res.value.at && Position(nextLine, nextColumn) == res.value.after))
        && (res.Err? ==> r.error == FromScanError(res.error))
      ensures c == old(c) && pc == old(pc) && Out() == old(Out())
    {
      var ch := data[read];
      read := read + 1;
      line, column := nextLine, nextColumn;
      if ch >= 0x80 {
        if IsLead(ch) {
          nextColumn := nextColumn + 1;
        }
      } else if ch < Space {
        if ch == Nul {
          return Ok(Nul);
        } else if ch == Tab {
        } else if ch == CarriageReturn {
          if data[read] == LineFeed {
            ch := data[read];
            read := read + 1;
            nextLine, nextColumn := nextLine + 1, 1;
          } else {
            return Err(TokeniseError(UnsupportedControlCharacter, line, column));
          }
        } else if ch == LineFeed {
          nextLine, nextColumn := nextLine + 1, 1;
        } else {
          return Err(TokeniseError(UnsupportedControlCharacter, line, column));
        }
      } else if ch == Delete {
        return Err(TokeniseError(UnsupportedControlCharacter, line, column));
      } else {
        nextColumn := nextColumn + 1;
      }
      return Ok(ch);
    }

    /** `get_filtered_char`. */
    method GetFilteredChar() returns (r: Result<byte, TokeniseError>)
      requires Valid() && read < data.Length
      modifies this
      ensures Advance(input, old(Cur())).Ok? <==> r.Ok?
      ensures r.Ok? ==> Cur() == Advance(input, old(Cur())).value && r.value == c && Valid()
      ensures r.Err? ==> r.error == Advance(input, old(Cur())).error
      ensures Out() == old(Out())
    {
      pc := c;
      var ch :- GetChar();
      if ch == Slash && data[read] == Asterisk {
        // The opening star cannot fail to scan.
        var star := GetChar();
        ch :- ConsumeComment(star.value);
      }
      c := ch;
      return Ok(ch);
    }

    /** `get_filtered_char` as the text rewriter uses it: only that some later character
        has been read, past any comment. */
    method NextChar() returns (r: Result<byte, TokeniseError>)
      requires Valid() && read < data.Length
      modifies this
      ensures r.Ok? ==> Valid() && read > old(read) && r.value == c && c == input[read - 1] && pc == old(c)
      ensures Out() == old(Out())
    {
      r := GetFilteredChar();
    }

    /** The comment loop of `get_filtered_char`, entered with the comment's opening `*`
        just read: it returns the character after the closing slash. */
    method ConsumeComment(ch0: byte) returns (r: Result<byte, TokeniseError>)
      requires Buffer() && 0 < read <= data.Length && ch0 == input[read - 1]
      requires ch0 != Nul ==> read < data.Length
      modifies this
      ensures var res := SkipComment(input, old(Scanned(ch0, read, Position(line, column), Position(nextLine, nextColumn))));
        (res.Ok? <==> r.Ok?)
        && (res.Ok? ==> (r.value == res.value.c && read == res.value.next
              && Position(line, column) == res.value.at && Position(nextLine, nextColumn) == res.value.after))
        && (res.Err? ==> r.error == FromScanError(res.error))
      ensures c == old(c) && pc == old(pc) && Out() == old(Out())
    {
      var ch := ch0;
      while true
        invariant Buffer() && Out() == old(Out()) && c == old(c) && pc == old(pc)
        invariant 0 < read <= data.Length && ch == input[read - 1]
        invariant ch != Nul ==> read < data.Length
        invariant SkipComment(input, Scanned(ch, read, Position(line, column), Position(nextLine, nextColumn)))
          == SkipComment(input, old(Scanned(ch0, read, Position(line, column), Position(nextLine, nextColumn))))
        decreases data.Length - read
      {
        if ch == Nul {
          return Err(TokeniseError(UnclosedComment, line, column));
        } else if ch == Asterisk && data[read] == Slash {
          var slash := GetChar();
          ch :- GetChar();
          return Ok(ch);
        }
        ch :- GetChar();
      }
    }

    /** `put_char`: one byte at the write index, recorded as a copied unit. */
    method PutChar(b: byte)
      requires OpenLine() && write < read
      modifies this, data
      ensures OpenLine() && pending == old(pending) + [Raw(b)] && write == old(write) + 1
      ensures lines == old(lines) && texts == old(texts) && refCount == old(refCount) && Cur() == old(Cur())
    {
      Put(Raw(b));
    }

    /** `put_text_token`: one sentinel byte at the write index. */
    method PutTextToken(t: TextToken)
      requires OpenLine() && write < read
      modifies this, data
      ensures OpenLine() && pending == old(pending) + [Mark(t)] && write == old(write) + 1
      ensures lines == old(lines) && texts == old(texts) && refCount == old(refCount) && Cur() == old(Cur())
    {
      Put(Mark(t));
    }

    method Put(x: TextUnit)
      requires OpenLine() && write < read
      modifies this, data
      ensures OpenLine() && pending == old(pending) + [x] && write == old(write) + 1
      ensures lines == old(lines) && texts == old(texts) && refCount == old(refCount) && Cur() == old(Cur())
    {
      ghost var t := lines[|lines| - 1];
      ghost var before := data[..];
      data[write] := UnitByte(x);
      write := write + 1;
      pending := pending + [x];
      AppendUnit(old(pending), x);
      WriteOneByte(before, data[..], write - 1, UnitByte(x), t.text);
    }

    /** `set_read_ptr`: jump the read index forward over bytes already checked. */
    method SetReadPtr(ptr: nat)
      requires Valid() && read <= ptr <= data.Length && 2 <= ptr && write + 2 <= ptr
      requires Returnable(input[ptr - 1])
      modifies this
      ensures read == ptr && column == old(column) + (ptr - old(read))
      ensures c == input[ptr - 1] && pc == input[ptr - 2]
      ensures line == old(line) && nextLine == old(nextLine) && nextColumn == old(nextColumn)
      ensures Cur() == MovedTo(input, old(Cur()), ptr)
      ensures Out() == old(Out()) && Valid()
      ensures old(Closed()) ==> Closed()
      ensures old(OpenLine()) ==> OpenLine()
    {
      column := column + (ptr - read);
      read := ptr;
      c := data[ptr - 1];
      pc := data[ptr - 2];
    }

    /** `add_line_token`, with the `index` the caller then sets. */
    method AddLineToken(kind: LineTokenType, index: nat)
      requires Closed() && IsEmitted(kind) && (!IsIndexed(kind) ==> index == 0)
      modifies this
      ensures lines == old(lines) + [LineToken(kind, line, write, index, 0)]
      ensures texts == old(texts) + [[]]
      ensures HasText(kind) ==> OpenLine() && pending == []
      ensures !HasText(kind) ==> Closed()
      ensures write == old(write) && refCount == old(refCount) && Cur() == old(Cur())
    {
      lines := lines + [LineToken(kind, line, write, index, 0)];
      texts := texts + [[]];
      if !HasText(kind) {
        forall k | 0 <= k < |lines|
          ensures TokenValid(data[..write], lines[k], texts[k])
        {
          if k < |lines| - 1 {
            assert TokenValid(data[..write], old(lines)[k], old(texts)[k]);
          }
        }
      } else {
        assert lines[..|lines| - 1] == old(lines) && texts[..|texts| - 1] == old(texts);
      }
    }

    /** `check_space`: a space is copied unless the previous character was one too; a tab
        inside text is an error. */
    method CheckSpace(ch: byte) returns (r: Result<bool, TokeniseError>)
      requires OpenLine() && write < read
      modifies this, data
      ensures ch == Space && pc == Space ==> r == Err(TokeniseError(ExtraneousSpace, line, column))
      ensures ch == Tab ==> r == Err(TokeniseError(TabInText, line, column))
      ensures ch == Space && old(pc) != Space ==> r == Ok(true) && pending == old(pending) + [Raw(Space)]
      ensures ch != Space && ch != Tab ==> r == Ok(false) && pending == old(pending)
      ensures r.Ok? ==> OpenLine() && write == old(write) + |pending| - |old(pending)|
      ensures lines == old(lines) && texts == old(texts) && refCount == old(refCount) && Cur() == old(Cur())
    {
      if ch == Space {
        if pc == Space {
          return Err(TokeniseError(ExtraneousSpace, line, column));
        }
        PutChar(ch);
        return Ok(true);
      } else if ch == Tab {
        return Err(TokeniseError(TabInText, line, column));
      }
      return Ok(false);
    }

    /** `check_emphasis`: `**` toggles strong and `*` toggles emphasis, writing the
        matching sentinel; `***` and mixing the two are errors. */
    method CheckEmphasis(ch: byte, state: Emphasis) returns (r: Result<(bool, Emphasis), TokeniseError>)
      requires OpenLine() && write < read && ch == c
      modifies this, data
      ensures ch != Asterisk ==> r == Ok((false, state)) && Out() == old(Out()) && Cur() == old(Cur())
      ensures ch == Asterisk ==>
        var strong := input[old(read)] == Asterisk;
        var triple := strong && input[old(read) + 1] == Asterisk;
        (triple ==> r == Err(TokeniseError(TooManyAsterisks, old(line), old(column))))
        && ((!triple && EmphasisStep(state, strong).None?)
              ==> r == Err(TokeniseError(MixedEmphasis, old(line), old(column))))
        && (!triple && EmphasisStep(state, strong).Some? ==>
              r == Ok((true, EmphasisStep(state, strong).value.1))
              && pending == old(pending) + [Mark(EmphasisStep(state, strong).value.0)]
              && (strong ==> Advance(input, old(Cur())).Ok? && Cur() == Advance(input, old(Cur())).value)
              && (!strong ==> Cur() == old(Cur())))
      ensures r.Ok? ==> OpenLine() && c == ch && read >= old(read)
      ensures lines == old(lines) && texts == old(texts) && refCount == old(refCount)
    {
      if ch == Asterisk {
        var strong := data[read] == Asterisk;
        if strong {
          if data[read + 1] == Asterisk {
            return Err(TokeniseError(TooManyAsterisks, line, column));
          }
        }
        var step := EmphasisStep(state, strong);
        if step.None? {
          return Err(TokeniseError(MixedEmphasis, line, column));
        }
        PutTextToken(step.value.0);
        if strong {
          // The second star cannot fail to scan.
          var second := GetFilteredChar();
        }
        return Ok((true, step.value.1));
      }
      return Ok((false, state));
    }

    /** `check_dash`: `--` writes an en dash and `---` an em dash; `----` is an error and
        a lone hyphen is left to be copied. */
    method CheckDash(ch: byte) returns (r: Result<bool, TokeniseError>)
      requires OpenLine() && write < read && ch == c
      modifies this, data
      ensures !(ch == Hyphen && input[old(read)] == Hyphen) ==> r == Ok(false) && Out() == old(Out()) && Cur() == old(Cur())
      ensures r.Ok? ==> OpenLine()
      ensures lines == old(lines) && texts == old(texts) && refCount == old(refCount)
      ensures r == Ok(true) ==> |pending| == |old(pending)| + 1 && pending == old(pending) + [pending[|pending| - 1]]
      ensures ch == Hyphen && input[old(read)] == Hyphen ==>
        (r.Err? ==> DashUnit(input, old(Cur())) == Err(r.error))
        && (r.Ok? ==> r.value && DashUnit(input, old(Cur())) == Ok((pending[|pending| - 1], Cur())))
    {
      if ch == Hyphen && data[read] == Hyphen {
        ghost var dash := DashUnit(input, Cur());
        if data[read + 1] == Hyphen {
          if data[read + 2] == Hyphen {
            return Err(TokeniseError(TooManyHyphens, line, column));
          }
          PutTextToken(EmDash);
          // Both hyphens scan without failure.
          var second := GetFilteredChar();
          var third := GetFilteredChar();
        } else {
          PutTextToken(EnDash);
          var second := GetFilteredChar();
        }
        assert dash == Ok((pending[|pending| - 1], Cur()));
        return Ok(true);
      }
      return Ok(false);
    }

    /** `check_newline`: at the line feed, record the text length and terminate the text
        with a 0 byte. A space starting the next line is reported as a trailing space. */
    method CheckNewline(ch: byte) returns (r: Result<bool, TokeniseError>)
      requires OpenLine() && write < read && ch == c
      modifies this, data
      ensures ch != LineFeed ==> r == Ok(false) && Out() == old(Out())
      ensures ch == LineFeed && input[old(read)] == Space ==> r == Err(TokeniseError(TrailingSpace, line, column))
      ensures ch == LineFeed && input[old(read)] != Space ==> (r == Ok(true)
        && pending == old(pending) + [Raw(Nul)] && write == old(write) + 1
        && |lines| == |old(lines)|
        && lines == old(lines)[..|lines| - 1] + [old(lines)[|lines| - 1].(length := |old(pending)|)]
        && texts == old(texts) && refCount == old(refCount))
      ensures r.Ok? ==> OpenLine()
      ensures Cur() == old(Cur())
    {
      if ch == LineFeed {
        if data[read] == Space {
          return Err(TokeniseError(TrailingSpace, line, column));
        }
        var t := lines[|lines| - 1];
        lines := lines[..|lines| - 1] + [t.(length := write - t.text)];
        assert lines[..|lines| - 1] == old(lines)[..|lines| - 1];
        PutChar(Nul);
        return Ok(true);
      }
      return Ok(false);
    }

    /** The inline reference branch of `tokenise_text`: `[`, a run of digits not starting
        with 0, `]`. The raw bytes between the brackets must spell the next reference
        number of the chapter; one reference sentinel is written. */
    method TokeniseReference() returns (r: Result<byte, TokeniseError>)
      requires OpenLine() && write < read && c == OpenBracket
      modifies this, data
      ensures r.Err? ==> ReferenceSpec(input, old(Cur()), old(refCount)) == Err(r.error)
      ensures r.Ok? ==> (OpenLine() && write < read && r.value == c
        && pending == old(pending) + [Mark(InlineReference)]
        && lines == old(lines) && texts == old(texts))
      ensures r.Ok? ==> ReferenceSpec(input, old(Cur()), old(refCount)) == Ok((Cur(), refCount))
    {
      ghost var spec := ReferenceSpec(input, old(Cur()), old(refCount));
      var begin := read;
      var ch :- ScanReference();
      assert begin < read;
      ReferenceSpecNumber(input, old(Cur()), Cur(), old(refCount));
      var index := ArabicAt(begin, CloseBracket, read - 1);
      r := CountReference(index, spec);
    }

    /** The end of the inline reference branch: the number between the brackets must be
        the next reference number of the chapter, and one reference sentinel is written.
        `spec` is what the whole branch should come to for that number. */
    method CountReference(index: Option<nat>, ghost spec: Result<(Cursor, nat), TokeniseError>)
        returns (r: Result<byte, TokeniseError>)
      requires OpenLine() && write + 1 < read
      requires spec == ReferenceNumbered(index, Cur(), refCount)
      modifies this, data
      ensures r.Ok? ==> (OpenLine() && write < read && r.value == c
        && pending == old(pending) + [Mark(InlineReference)]
        && lines == old(lines) && texts == old(texts))
      ensures r.Err? ==> spec == Err(r.error)
      ensures r.Ok? ==> spec == Ok((Cur(), refCount))
    {
      if index.None? {
        return Err(TokeniseError(NumberTooLong, line, column));
      }
      refCount := refCount + 1;
      if index.value != refCount {
        return Err(TokeniseError(UnexpectedReferenceNumber(refCount), line, column));
      }
      PutTextToken(InlineReference);
      return Ok(c);
    }

    /** `arabic_to_int` on bytes not yet overwritten, which are still the manuscript's. */
    method ArabicAt(begin: nat, terminator: byte, end: nat) returns (index: Option<nat>)
      requires Buffer() && write <= begin <= end < data.Length && input[end] == terminator
      ensures terminator in input[begin..] && index == ArabicValue(input, begin, terminator)
    {
      assert terminator in input[begin..] by {
        assert input[begin..][end - begin] == terminator;
      }
      assert terminator in data[..][begin..] by {
        assert data[..][begin..][end - begin] == terminator;
      }
      RunLengthAgrees(input, data[..], begin, terminator);
      var n := RunLength(input, begin, terminator);
      assert data[begin .. begin + n] == input[begin .. begin + n];
      index := ArabicToInt(data, begin, terminator);
    }

    /** The scanning part of the inline reference branch: the characters after `[` up to
        the closing `]`, which must be digits, the first not 0. */
    method ScanReference() returns (r: Result<byte, TokeniseError>)
      requires Valid() && c == OpenBracket
      modifies this
      ensures r.Err? ==> ReferenceScan(input, old(Cur())) == Err(r.error)
      ensures r.Ok? ==> Valid() && r.value == c && ReferenceScan(input, old(Cur())) == Ok(Cur())
      ensures Out() == old(Out())
    {
      ghost var start := Cur();
      var ch :- GetFilteredChar();
      if ch == CloseBracket {
        return Err(TokeniseError(EmptyReference, line, column));
      }
      if ch == Digit0 {
        return Err(TokeniseError(ReferenceFromZero, line, column));
      }
      while true
        invariant Valid() && ch == c && Out() == old(Out())
        invariant ReferenceScan(input, start) == ReferenceDigits(input, Cur())
        decreases data.Length - read
      {
        if ch < Digit0 || ch > Digit9 {
          return Err(TokeniseError(ReferenceNotNumeric, line, column));
        }
        ghost var before := Cur();
        ch :- GetFilteredChar();
        if ch == CloseBracket {
          break;
        }
      }
      return Ok(ch);
    }

    /** The body of the loop of `tokenise_text` up to reading the next character, proved
        against `UnitSpec`: the character `ch` is rewritten as exactly one unit, or the
        line feed ends the line. */
    method WriteUnit(ch: byte, quoteLevel: nat, em: Emphasis) returns (r: Result<TextProgress, TokeniseError>)
      requires OpenLine() && write < read && ch == c && quoteLevel <= 1
      modifies this, data
      ensures r.Ok? && r.value.LineDone? ==> (OpenLine() && ch == LineFeed && Cur() == old(Cur())
        && pending == old(pending) + [Raw(Nul)] && |lines| == |old(lines)|
        && lines == old(lines)[..|lines| - 1] + [old(lines)[|lines| - 1].(length := |old(pending)|)]
        && texts == old(texts) && refCount == old(refCount))
      ensures r.Ok? && r.value.More? ==> (OpenLine() && lines == old(lines) && texts == old(texts)
        && r.value.quoteLevel <= 1 && |pending| == |old(pending)| + 1 && pending == old(pending) + [pending[|pending| - 1]])
      ensures var spec := UnitSpec(input, TextState(old(Cur()), quoteLevel == 1, em, old(refCount)));
        (r.Err? ==> spec == Err(r.error))
        && (r.Ok? && r.value.LineDone? ==> spec == Ok(None))
        && (r.Ok? && r.value.More? ==>
              spec == Ok(Some((pending[|pending| - 1], TextState(Cur(), r.value.quoteLevel == 1, r.value.emphasis, refCount)))))
    {
      if ch == DoubleQuote {
        if quoteLevel == 0 {
          PutTextToken(QuoteBegin);
          return Ok(More(ch, 1, em));
        } else {
          PutTextToken(QuoteEnd);
          return Ok(More(ch, 0, em));
        }
      } else if ch == OpenBracket {
        var close :- TokeniseReference();
        return Ok(More(close, quoteLevel, em));
      }
      var outcome :- TextCharStep(ch, em);
      if outcome.0 {
        return Ok(LineDone);
      }
      return Ok(More(ch, quoteLevel, outcome.1));
    }

    /** The branches of the loop of `tokenise_text` for characters other than `"` and `[`,
        proved against `CharUnit`: spacing, emphasis, dashes, the line feed, and plain
        copying. Returns whether the line ended, and the new emphasis state. */
    method TextCharStep(ch: byte, em: Emphasis) returns (r: Result<(bool, Emphasis), TokeniseError>)
      requires OpenLine() && write < read && ch == c && ch != DoubleQuote && ch != OpenBracket
      modifies this, data
      ensures r.Ok? && r.value.0 ==> (OpenLine() && ch == LineFeed && Cur() == old(Cur())
        && pending == old(pending) + [Raw(Nul)] && |lines| == |old(lines)|
        && lines == old(lines)[..|lines| - 1] + [old(lines)[|lines| - 1].(length := |old(pending)|)]
        && texts == old(texts) && refCount == old(refCount))
      ensures r.Ok? && !r.value.0 ==> (OpenLine() && lines == old(lines) && texts == old(texts) && refCount == old(refCount)
        && |pending| == |old(pending)| + 1 && pending == old(pending) + [pending[|pending| - 1]])
      ensures var spec := CharUnit(input, old(Cur()), em);
        (r.Err? ==> spec == Err(r.error))
        && (r.Ok? && r.value.0 ==> spec == Ok(None))
        && (r.Ok? && !r.value.0 ==> spec == Ok(Some((pending[|pending| - 1], Cur(), r.value.1))))
    {
      var space :- CheckSpace(ch);
      if space {
        return Ok((false, em));
      }
      r := TextMarkStep(ch, em);
    }

    /** The emphasis branch of the loop of `tokenise_text`, then the remaining ones,
        proved against `MarkUnit`. */
    method TextMarkStep(ch: byte, em: Emphasis) returns (r: Result<(bool, Emphasis), TokeniseError>)
      requires OpenLine() && write < read && ch == c && ch != DoubleQuote && ch != OpenBracket
      requires ch != Space && ch != Tab
      modifies this, data
      ensures r.Ok? && r.value.0 ==> (OpenLine() && ch == LineFeed && Cur() == old(Cur())
        && pending == old(pending) + [Raw(Nul)] && |lines| == |old(lines)|
        && lines == old(lines)[..|lines| - 1] + [old(lines)[|lines| - 1].(length := |old(pending)|)]
        && texts == old(texts) && refCount == old(refCount))
      ensures r.Ok? && !r.value.0 ==> (OpenLine() && lines == old(lines) && texts == old(texts) && refCount == old(refCount)
        && |pending| == |old(pending)| + 1 && pending == old(pending) + [pending[|pending| - 1]])
      ensures var spec := MarkUnit(input, old(Cur()), em);
        (r.Err? ==> spec == Err(r.error))
        && (r.Ok? && r.value.0 ==> spec == Ok(None))
        && (r.Ok? && !r.value.0 ==> spec == Ok(Some((pending[|pending| - 1], Cur(), r.value.1))))
    {
      var emphasis :- CheckEmphasis(ch, em);
      if emphasis.0 {
        return Ok((false, emphasis.1));
      }
      var done :- TextPlainStep(ch);
      return Ok((done, em));
    }

    /** The last branches of the loop of `tokenise_text`, proved against `PlainUnit`:
        dashes, the line feed, and plain copying. Returns whether the line ended. */
    method TextPlainStep(ch: byte) returns (r: Result<bool, TokeniseError>)
      requires OpenLine() && write < read && ch == c && ch != DoubleQuote && ch != OpenBracket
      requires ch != Space && ch != Tab && ch != Asterisk
      modifies this, data
      ensures r.Ok? && r.value ==> (OpenLine() && ch == LineFeed && Cur() == old(Cur())
        && pending == old(pending) + [Raw(Nul)] && |lines| == |old(lines)|
        && lines == old(lines)[..|lines| - 1] + [old(lines)[|lines| - 1].(length := |old(pending)|)]
        && texts == old(texts) && refCount == old(refCount))
      ensures r.Ok? && !r.value ==> (OpenLine() && lines == old(lines) && texts == old(texts) && refCount == old(refCount)
        && |pending| == |old(pending)| + 1 && pending == old(pending) + [pending[|pending| - 1]])
      ensures var spec := PlainUnit(input, old(Cur()));
        (r.Err? ==> spec == Err(r.error))
        && (r.Ok? && r.value ==> spec == Ok(None))
        && (r.Ok? && !r.value ==> spec == Ok(Some((pending[|pending| - 1], Cur()))))
    {
      var dash :- CheckDash(ch);
      if dash {
        return Ok(false);
      }
      var newline :- CheckNewline(ch);
      if newline {
        return Ok(true);
      }
      if ch == Nul {
        return Err(TokeniseError(EndOfInputInLine, line, column));
      }
      PutChar(ch);
      return Ok(false);
    }

    /** The state after a line of text that started at read index `from`, with the tokens
        `before`, their texts `beforeTexts` and `refs` references counted: every token is
        complete, `last` is the character just read, and only the last token's length and
        text and the count changed, by that text's references. */
    ghost predicate TextClosed(last: byte, from: nat, before: seq<LineToken>, beforeTexts: seq<seq<TextUnit>>, refs: nat)
      reads this, data
    {
      Resumed(last, from) && TextReplaced(before, beforeTexts, refs)
    }

    /** Between lines, having read past index `from`: every token is complete and `last`
        is the character just read, the first of the next line. */
    ghost predicate Resumed(last: byte, from: nat)
      reads this, data
    {
      Closed() && write < read && last == c == input[read - 1] && read > from
    }

    /** Only the last token's length and text and the reference count differ from `before`,
        `beforeTexts` and `refs`, the count by the references in that text. */
    ghost predicate TextReplaced(before: seq<LineToken>, beforeTexts: seq<seq<TextUnit>>, refs: nat)
      reads this`lines, this`texts, this`refCount
    {
      |lines| == |before| == |beforeTexts| > 0 && |texts| == |lines|
      && lines[..|lines| - 1] == before[..|lines| - 1]
      && lines[|lines| - 1] == before[|lines| - 1].(length := |texts[|texts| - 1]|)
      && texts[..|texts| - 1] == beforeTexts[..|texts| - 1]
      && refCount == refs + ReferenceCount(texts[|texts| - 1])
    }

    /** `tokenise_text`, proved against `TextSpec`: rewrite one line of text in place, up
        to and including its line feed, and return the first character of the next line.
        The token's text is then complete: valid units, balanced markup, legal spacing, a
        0 byte after it. */
    method TokeniseText(ch0: byte) returns (r: Result<byte, TokeniseError>)
      requires OpenLine() && pending == [] && write < read && ch0 == c
      modifies this, data
      ensures ch0 == Space ==> r == Err(TokeniseError(LeadingSpace, old(line), old(column)))
      ensures r.Err? ==> TextSpec(input, old(Cur()), old(refCount)) == Err(r.error)
      ensures r.Ok? ==> TextClosed(r.value, old(read), old(lines), old(texts), old(refCount))
      ensures r.Ok? ==> TextSpec(input, old(Cur()), old(refCount)) == Ok((texts[|texts| - 1], Cur(), refCount))
    {
      if ch0 == Space {
        return Err(TokeniseError(LeadingSpace, line, column));
      }
      ghost var spec := TextSpec(input, old(Cur()), old(refCount));
      var markup :- RewriteLine(ch0, spec);
      ghost var units := pending[..|pending| - 1];
      assert pending == units + [Raw(Nul)];
      r := FinishText(markup.0, markup.1, units, spec, old(lines), old(texts), old(refCount), old(read));
    }

    /** The end of `tokenise_text`, proved against `TextEnd`, whose value here is `spec`:
        a quote or emphasis left open is an error; otherwise the text `units`, written
        after `refs` references, is closed and the next character read. */
    method FinishText(quoteLevel: nat, em: Emphasis, ghost units: seq<TextUnit>,
                      ghost spec: Result<(seq<TextUnit>, Cursor, nat), TokeniseError>,
                      ghost before: seq<LineToken>, ghost beforeTexts: seq<seq<TextUnit>>,
                      ghost refs: nat, ghost from: nat)
        returns (r: Result<byte, TokeniseError>)
      requires OpenLine() && c == LineFeed && quoteLevel <= 1 && from <= read
      requires pending == units + [Raw(Nul)] && texts == beforeTexts
      requires |lines| == |before| && lines == before[..|lines| - 1] + [before[|lines| - 1].(length := |units|)]
      requires AllValid(units) && SpacingOk(units) && MarkupAfter(units) == Some(Markup(quoteLevel == 1, em))
      requires refCount == refs + ReferenceCount(units)
      requires spec == TextEnd(input, units, TextState(Cur(), quoteLevel == 1, em, refCount))
      modifies this, data
      ensures r.Ok? ==> TextClosed(r.value, from, before, beforeTexts, refs)
      ensures r.Err? ==> spec == Err(r.error)
      ensures r.Ok? ==> spec == Ok((texts[|texts| - 1], Cur(), refCount))
    {
      if quoteLevel != 0 {
        return Err(TokeniseError(UnterminatedQuote, line, column));
      }
      if em == Strong {
        return Err(TokeniseError(UnterminatedStrong, line, column));
      } else if em == Emphasised {
        return Err(TokeniseError(UnterminatedEmphasis, line, column));
      }
      r := EndText(units, spec, before, beforeTexts, refs, from);
    }

    /** The last step of `tokenise_text`, nothing being left open: the units become the
        token's text and the next character is read. */
    method EndText(ghost units: seq<TextUnit>, ghost spec: Result<(seq<TextUnit>, Cursor, nat), TokeniseError>,
                   ghost before: seq<LineToken>, ghost beforeTexts: seq<seq<TextUnit>>,
                   ghost refs: nat, ghost from: nat)
        returns (r: Result<byte, TokeniseError>)
      requires OpenLine() && c == LineFeed && from <= read
      requires pending == units + [Raw(Nul)] && texts == beforeTexts
      requires |lines| == |before| && lines == before[..|lines| - 1] + [before[|lines| - 1].(length := |units|)]
      requires AllValid(units) && SpacingOk(units) && Balanced(units)
      requires refCount == refs + ReferenceCount(units)
      requires spec == TextEnd(input, units, TextState(Cur(), false, Plain, refCount))
      modifies this
      ensures r.Ok? ==> TextClosed(r.value, from, before, beforeTexts, refs)
      ensures r.Err? ==> spec == Err(r.error)
      ensures r.Ok? ==> spec == Ok((texts[|texts| - 1], Cur(), refCount))
    {
      CloseText(units, before, beforeTexts, refs);
      r := GetFilteredChar();
    }

    /** The loop of `tokenise_text`, proved against `LineSpec`: the line's characters are
        rewritten up to its line feed, which becomes a 0 byte. Returns the quote level and
        emphasis state left open at the end of the line. */
    method RewriteLine(ch0: byte, ghost spec: Result<(seq<TextUnit>, Cursor, nat), TokeniseError>)
        returns (r: Result<(nat, Emphasis), TokeniseError>)
      requires OpenLine() && pending == [] && write < read && ch0 == c && ch0 != Space
      requires spec == TextSpec(input, Cur(), refCount)
      modifies this, data
      ensures r.Ok? ==> (OpenLine() && c == LineFeed && r.value.0 <= 1 && read >= old(read)
        && |pending| > 0 && pending[|pending| - 1] == Raw(Nul)
        && var units := pending[..|pending| - 1];
        AllValid(units) && SpacingOk(units)
        && MarkupAfter(units) == Some(Markup(r.value.0 == 1, r.value.1))
        && |lines| == |old(lines)|
        && lines == old(lines)[..|lines| - 1] + [old(lines)[|lines| - 1].(length := |units|)]
        && texts == old(texts) && refCount == old(refCount) + ReferenceCount(units))
      ensures r.Err? ==> spec == Err(r.error)
      ensures r.Ok? ==> spec == TextEnd(input, pending[..|pending| - 1], TextState(Cur(), r.value.0 == 1, r.value.1, refCount))
    {
      ghost var start := TextState(Cur(), false, Plain, refCount);
      PrefixedEmpty(LineSpec(input, start));
      TextSpecOfLine(input, start.cur, start.refs);
      var ch := ch0;
      var quoteLevel: nat := 0;
      var em := Plain;
      while true
        invariant OpenLine() && write < read && ch == c && quoteLevel <= 1 && read >= old(read)
        invariant lines == old(lines) && texts == old(texts)
        invariant LineSpec(input, start) == Prefixed(pending, LineSpec(input, TextState(Cur(), quoteLevel == 1, em, refCount)))
        decreases data.Length - read
      {
        ghost var p := pending;
        LineSpecStep(input, TextState(Cur(), quoteLevel == 1, em, refCount), p);
        var step := TextStep(ch, quoteLevel, em);
        if step.Err? {
          return Err(step.error);
        }
        if step.value.LineDone? {
          assert pending[..|pending| - 1] == p;
          LineSpecFromStart(input, start.cur, start.refs);
          return Ok((quoteLevel, em));
        }
        ch, quoteLevel, em := step.value.last, step.value.quoteLevel, step.value.emphasis;
      }
    }

    /** One pass of the loop of `tokenise_text`, proved against `StepSpec`: one unit is
        written and the next character read, or the line ends. */
    method TextStep(ch: byte, quoteLevel: nat, em: Emphasis) returns (r: Result<TextProgress, TokeniseError>)
      requires OpenLine() && write < read && ch == c && quoteLevel <= 1
      modifies this, data
      ensures r.Ok? && r.value.LineDone? ==> (OpenLine() && c == LineFeed && Cur() == old(Cur())
        && pending == old(pending) + [Raw(Nul)] && |lines| == |old(lines)|
        && lines == old(lines)[..|lines| - 1] + [old(lines)[|lines| - 1].(length := |old(pending)|)]
        && texts == old(texts) && refCount == old(refCount))
      ensures r.Ok? && r.value.More? ==> (OpenLine() && write < read && r.value.last == c
        && r.value.quoteLevel <= 1 && lines == old(lines) && texts == old(texts)
        && |pending| == |old(pending)| + 1 && pending == old(pending) + [pending[|pending| - 1]])
      ensures var spec := StepSpec(input, TextState(old(Cur()), quoteLevel == 1, em, old(refCount)));
        (r.Err? ==> spec == Err(r.error))
        && (r.Ok? && r.value.LineDone? ==> spec == Ok(None))
        && (r.Ok? && r.value.More? ==>
              spec == Ok(Some((pending[|pending| - 1], TextState(Cur(), r.value.quoteLevel == 1, r.value.emphasis, refCount)))))
    {
      r := WriteUnit(ch, quoteLevel, em);
      if r.Err? || r.value.LineDone? {
        return;
      }
      var next :- GetFilteredChar();
      return Ok(r.value.(last := next));
    }

    /** The ghost bookkeeping at the end of a line: the units become the token's text. */
    ghost method CloseText(units: seq<TextUnit>, before: seq<LineToken>, beforeTexts: seq<seq<TextUnit>>, refs: nat)
      requires OpenLine() && pending == units + [Raw(Nul)] && texts == beforeTexts
      requires |lines| == |before| && lines == before[..|lines| - 1] + [before[|lines| - 1].(length := |units|)]
      requires AllValid(units) && SpacingOk(units) && Balanced(units)
      requires refCount == refs + ReferenceCount(units)
      modifies this
      ensures Closed() && TextReplaced(before, beforeTexts, refs) && texts[|texts| - 1] == units
      ensures lines == old(lines) && write == old(write) && refCount == old(refCount) && Cur() == old(Cur())
    {
      ghost var t := lines[|lines| - 1];
      assert data[..write][..t.text] == data[..t.text];
      assert data[..write][t.text..] == data[t.text .. write];
      CloseLine(data[..write], lines, texts, units);
      texts := texts[..|texts| - 1] + [units];
      pending := [];
      assert texts[..|texts| - 1] == beforeTexts[..|texts| - 1];
      assert lines[..|lines| - 1] == before[..|lines| - 1];
    }

    /** One token of the given kind and index was appended to `before`, its text complete. */
    ghost predicate LineAdded(before: seq<LineToken>, beforeTexts: seq<seq<TextUnit>>, kind: LineTokenType, index: nat)
      reads this`lines, this`texts
    {
      |lines| == |before| + 1 && lines[..|before|] == before
      && |texts| == |beforeTexts| + 1 && texts[..|beforeTexts|] == beforeTexts
      && lines[|before|].kind == kind && lines[|before|].index == index
    }

    /** One token of the given kind and index, stored with line `lineNo`, was appended to
        `before`, and its text, the scanner after it and the count are those of `spec`. */
    ghost predicate TextAdded(before: seq<LineToken>, beforeTexts: seq<seq<TextUnit>>, kind: LineTokenType, index: nat,
                              lineNo: nat, spec: Result<(seq<TextUnit>, Cursor, nat), TokeniseError>)
      reads this
    {
      LineAdded(before, beforeTexts, kind, index) && lines[|before|].line == lineNo
      && spec == Ok((texts[|texts| - 1], Cur(), refCount))
    }

    /** A line of text that ended with `r` agrees with `spec`, the text `tokenise_text`
        rewrites: the same error, or the token added as `TextAdded` says. */
    ghost predicate LineRead(r: Result<byte, TokeniseError>, before: seq<LineToken>, beforeTexts: seq<seq<TextUnit>>,
                             kind: LineTokenType, index: nat, lineNo: nat,
                             spec: Result<(seq<TextUnit>, Cursor, nat), TokeniseError>)
      reads this
    {
      (r.Err? ==> spec == Err(r.error)) && (r.Ok? ==> TextAdded(before, beforeTexts, kind, index, lineNo, spec))
    }

    /** A line of text of the given kind: its token, then `tokenise_text` from `ch`. */
    method TextLine(kind: LineTokenType, index: nat, ch: byte) returns (r: Result<byte, TokeniseError>)
      requires Closed() && write < read && ch == c && HasText(kind) && (!IsIndexed(kind) ==> index == 0)
      modifies this, data
      ensures ch == Space ==> r == Err(TokeniseError(LeadingSpace, old(line), old(column)))
      ensures r.Ok? ==> Resumed(r.value, old(read))
      ensures LineRead(r, old(lines), old(texts), kind, index, old(line), TextSpec(input, old(Cur()), old(refCount)))
      ensures r.Ok? ==> refCount == old(refCount) + ReferenceCount(texts[|texts| - 1])
    {
      AddLineToken(kind, index);
      r := TextAfterToken(ch, old(lines), old(texts), old(line));
    }

    /** `tokenise_text` from `ch` once the line's token is added to `before`. */
    method TextAfterToken(ch: byte, ghost before: seq<LineToken>, ghost beforeTexts: seq<seq<TextUnit>>, ghost lineNo: nat)
        returns (r: Result<byte, TokeniseError>)
      requires OpenLine() && pending == [] && write < read && ch == c
      requires |lines| == |before| + 1 && lines[..|before|] == before && lines[|before|].length == 0
      requires texts == beforeTexts + [[]] && lines[|before|].line == lineNo
      modifies this, data
      ensures ch == Space ==> r == Err(TokeniseError(LeadingSpace, old(line), old(column)))
      ensures r.Ok? ==> Resumed(r.value, old(read))
      ensures LineRead(r, before, beforeTexts, old(lines[|before|].kind), old(lines[|before|].index), lineNo,
        TextSpec(input, old(Cur()), old(refCount)))
      ensures r.Ok? ==> refCount == old(refCount) + ReferenceCount(texts[|texts| - 1])
    {
      r := TokeniseText(ch);
      if r.Ok? {
        assert lines[..|before|] == old(lines)[..|before|] == before;
        assert texts[..|beforeTexts|] == old(texts)[..|beforeTexts|] == beforeTexts;
      }
    }

    /** What `tokenise_paragraph` does from `cur`: a paragraph, of a quotation when
        `blockquote`, whose text starts at the current character. */
    ghost predicate ParagraphOutcome(r: Result<byte, TokeniseError>, before: seq<LineToken>, beforeTexts: seq<seq<TextUnit>>,
                                     refs: nat, cur: Cursor, blockquote: bool)
      requires Scannable(input, cur)
      reads this
    {
      LineRead(r, before, beforeTexts, if blockquote then BlockParagraph else Paragraph, 0, cur.at.line, TextSpec(input, cur, refs))
    }

    /** `tokenise_paragraph`. */
    method TokeniseParagraph(ch: byte, blockquote: bool) returns (r: Result<byte, TokeniseError>)
      requires Closed() && write < read && ch == c
      modifies this, data
      ensures ch == Space ==> r == Err(TokeniseError(LeadingSpace, old(line), old(column)))
      ensures r.Ok? ==> Resumed(r.value, old(read))
      ensures ParagraphOutcome(r, old(lines), old(texts), old(refCount), old(Cur()), blockquote)
      ensures r.Ok? ==> refCount == old(refCount) + ReferenceCount(texts[|texts| - 1])
    {
      r := TextLine(if blockquote then BlockParagraph else Paragraph, 0, ch);
    }

    /** The result and the scanner are those of the read `next`: its character and
        cursor, or its error. */
    ghost predicate ReadAs(r: Result<byte, TokeniseError>, next: Result<Cursor, TokeniseError>)
      reads this
    {
      (next.Err? ==> r == Err(next.error)) && (next.Ok? ==> r == Ok(next.value.c) && Cur() == next.value)
    }

    /** What `tokenise_newline` does from the line feed at `cur`: one newline token (of a
        quotation when `blockquote`) on the line feed's line, with empty text, then the
        next character is read. */
    ghost predicate NewlineOutcome(r: Result<byte, TokeniseError>, before: seq<LineToken>, beforeTexts: seq<seq<TextUnit>>,
                                   refs: nat, cur: Cursor, blockquote: bool)
      requires Scannable(input, cur) && cur.c != Nul
      reads this
    {
      ReadAs(r, Advance(input, cur))
      && (r.Ok? ==>
            (LineAdded(before, beforeTexts, if blockquote then BlockNewline else Newline, 0)
             && lines[|before|].line == cur.at.line && texts[|texts| - 1] == [] && refCount == refs))
    }

    /** `tokenise_newline`: an empty line. */
    method TokeniseNewline(blockquote: bool) returns (r: Result<byte, TokeniseError>)
      requires Closed() && write < read && c == LineFeed
      modifies this
      ensures r.Ok? ==> Resumed(r.value, old(read))
      ensures r.Ok? ==> (LineAdded(old(lines), old(texts), if blockquote then BlockNewline else Newline, 0)
        && lines[|old(lines)|].line == old(line) && texts[|texts| - 1] == [] && refCount == old(refCount))
      ensures NewlineOutcome(r, old(lines), old(texts), old(refCount), old(Cur()), blockquote)
    {
      ghost var before, beforeTexts := lines, texts;
      AddLineToken(if blockquote then BlockNewline else Newline, 0);
      assert LineAdded(before, beforeTexts, if blockquote then BlockNewline else Newline, 0)
        && lines[|before|].line == old(line) && texts[|texts| - 1] == [];
      r := GetFilteredChar();
    }

    /** A line whose marker ends at the current character: the line's token, stored with
        the current line, then `tokenise_text` from the character after the marker. The
        token comes first, so a comment after the marker that spans a line feed does not
        change the token's line. */
    method MarkedLine(kind: LineTokenType, index: nat) returns (r: Result<byte, TokeniseError>)
      requires Closed() && write < read && c != Nul && HasText(kind) && (!IsIndexed(kind) ==> index == 0)
      modifies this, data
      ensures r.Ok? ==> Resumed(r.value, old(read))
      ensures LineRead(r, old(lines), old(texts), kind, index, old(line), TextAfter(input, old(Cur()), old(refCount)))
      ensures r.Ok? ==> refCount == old(refCount) + ReferenceCount(texts[|texts| - 1])
    {
      AddLineToken(kind, index);
      var ch :- GetFilteredChar();
      r := TextAfterToken(ch, old(lines), old(texts), old(line));
    }

    /** The digit scan of the line classifier, on bytes not yet overwritten. */
    method ScanDigits(from: nat) returns (p: nat)
      requires Buffer() && write <= from < data.Length
      ensures p == DigitEnd(input, from)
    {
      p := from;
      while Digit0 <= data[p] <= Digit9
        invariant from <= p < data.Length && DigitEnd(input, from) == DigitEnd(input, p)
        decreases data.Length - p
      {
        p := p + 1;
      }
    }

    /** The numeral-letter scan of the line classifier. */
    method ScanRoman(from: nat) returns (p: nat)
      requires Buffer() && write <= from < data.Length
      ensures p == RomanEnd(input, from)
    {
      p := from;
      while data[p] == UpperI || data[p] == UpperV || data[p] == UpperX
        invariant from <= p < data.Length && RomanEnd(input, from) == RomanEnd(input, p)
        decreases data.Length - p
      {
        p := p + 1;
      }
    }

    /** What `tokenise_heading` does from the `#` at `cur`: the loop reads the `#` that
        follow; more than three in all is an error, as is a character other than a space
        after them, both at that character; otherwise the count is the level, the token
        is on the space's line and the text is read after the space, a level-one heading
        restarting the reference count. */
    ghost predicate HeadingOutcome(r: Result<byte, TokeniseError>, before: seq<LineToken>, beforeTexts: seq<seq<TextUnit>>,
                                   refs: nat, cur: Cursor)
      requires Scannable(input, cur) && cur.c == Hash
      reads this
    {
      var run := HashLoop(input, cur, 0);
      (run.Err? ==> r == Err(run.error))
      && (run.Ok? && run.value.0 > 2 ==>
            r == Err(TokeniseError(HeadingTooDeep, run.value.1.at.line, run.value.1.at.column)))
      && (run.Ok? && run.value.0 <= 2 && run.value.1.c != Space ==>
            r == Err(TokeniseError(HeadingWithoutSpace, run.value.1.at.line, run.value.1.at.column)))
      && (run.Ok? && run.value.0 <= 2 && run.value.1.c == Space ==>
            LineRead(r, before, beforeTexts, HeadingOfDepth(run.value.0), 0, run.value.1.at.line,
              TextAfter(input, run.value.1, if run.value.0 == 0 then 0 else refs)))
    }

    /** `tokenise_heading`: one `#` per level, at most three, then a space and the text.
        A level-one heading starts a chapter, so the reference count restarts. The loop
        counts as `HashLoop` does, comments included; when no comment follows the run of
        `#`, its length decides the level (`HashLoopNoComment`). */
    method TokeniseHeading() returns (r: Result<byte, TokeniseError>)
      requires Closed() && write < read && c == Hash
      modifies this, data
      ensures r.Ok? ==> Resumed(r.value, old(read))
      ensures r.Ok? ==> (|lines| == |old(lines)| + 1 && IsHeading(lines[|old(lines)|].kind)
        && LineAdded(old(lines), old(texts), lines[|old(lines)|].kind, 0)
        && refCount == (if lines[|old(lines)|].kind == Heading1 then 0 else old(refCount)) + ReferenceCount(texts[|texts| - 1]))
      ensures HeadingOutcome(r, old(lines), old(texts), old(refCount), old(Cur()))
    {
      var depth :- HeadingDepth();
      if depth == 0 {
        refCount := 0;
      } else if depth > 2 {
        return Err(TokeniseError(HeadingTooDeep, line, column));
      }
      if c != Space {
        return Err(TokeniseError(HeadingWithoutSpace, line, column));
      }
      var kind := HeadingOfDepth(depth);
      assert depth == 0 <==> kind == Heading1;
      r := MarkedLine(kind, 0);
    }

    /** The loop of `tokenise_heading`: the number of `#` after the first one, as
        `HashLoop` counts them; when no comment follows the run, the run's length. */
    method HeadingDepth() returns (r: Result<nat, TokeniseError>)
      requires Valid() && c == Hash
      modifies this
      ensures r.Ok? ==> Valid() && c != Hash && read > old(read) && c == input[read - 1] && Out() == old(Out())
      ensures var e := HashEnd(input, old(read));
        input[e] != Slash ==>
          (input[e] == Space ==> r.Ok? && Cur() == ReadPlains(input, old(Cur()), e + 1 - old(read)))
          && (r.Ok? ==> r.value == e - old(read) && (c == Space <==> input[e] == Space))
      ensures var run := HashLoop(input, old(Cur()), 0);
        (run.Err? ==> r == Err(run.error)) && (run.Ok? ==> r == Ok(run.value.0) && Cur() == run.value.1)
    {
      if input[HashEnd(input, read)] != Slash {
        HashLoopNoComment(input, Cur());
      }
      r := CountHashes();
    }

    /** The `do … while` loop itself, from a count of -1: it reads on while the character
        read is a `#`, as `HashLoop` does. */
    method CountHashes() returns (r: Result<nat, TokeniseError>)
      requires Valid() && c == Hash
      modifies this
      ensures r.Ok? ==> Valid() && read > old(read) && c == input[read - 1] && Out() == old(Out())
      ensures var run := HashLoop(input, old(Cur()), 0);
        (run.Err? ==> r == Err(run.error)) && (run.Ok? ==> r == Ok(run.value.0) && Cur() == run.value.1)
    {
      ghost var run := HashLoop(input, Cur(), 0);
      var depth: int := -1;
      var ch := Hash;
      while ch == Hash
        invariant Valid() && read >= old(read) && ch == c && Out() == old(Out()) && depth >= -1
        invariant ch == Hash ==> read < data.Length && HashLoop(input, Cur(), depth + 1) == run
        invariant ch != Hash ==> depth >= 0 && read > old(read) && c == input[read - 1] && run == Ok((depth, Cur()))
        decreases data.Length - read, if ch == Hash then 1 else 0
      {
        depth := depth + 1;
        var next := HashStep(depth);
        if next.Err? {
          return Err(next.error);
        }
        ch := next.value;
      }
      return Ok(depth);
    }

    /** One pass of the loop of `CountHashes`: one `get_filtered_char`, which is one step
        of `HashLoop`. */
    method HashStep(ghost depth: nat) returns (r: Result<byte, TokeniseError>)
      requires Valid() && c != Nul
      modifies this
      ensures r.Ok? ==> Valid() && read > old(read) && r.value == c == input[read - 1] && Out() == old(Out())
      ensures HashLoop(input, old(Cur()), depth) ==
        if r.Err? then Err(r.error) else if c == Hash then HashLoop(input, Cur(), depth + 1) else Ok((depth, Cur()))
    {
      r := GetFilteredChar();
    }

    /** What `tokenise_ordered_list_arabic` does from the first digit, at `cur`, when the
        digits end at p: digits then ". " make a numbered item whose index is the number
        they spell, as `arabic_to_int` computes it, and whose text is read after the
        marker; too many digits are an error; anything else is a paragraph from the first
        digit on. */
    ghost predicate ArabicOutcome(r: Result<byte, TokeniseError>, before: seq<LineToken>, beforeTexts: seq<seq<TextUnit>>,
                                  refs: nat, cur: Cursor, p: nat)
      requires Scannable(input, cur) && 0 < cur.read <= p < |input|
      reads this
    {
      (MarkerEnd(input, p, Period) ==> NumberedOutcome(r, before, beforeTexts, refs, cur, p, OrderedListArabic))
      && (!MarkerEnd(input, p, Period) ==> ParagraphOutcome(r, before, beforeTexts, refs, cur, false))
    }

    /** `tokenise_ordered_list_arabic`: digits then ". " make a numbered item whose index
        is the number the digits spell, as `arabic_to_int` computes it; anything else
        starts a paragraph. */
    method TokeniseOrderedListArabic() returns (r: Result<byte, TokeniseError>)
      requires Closed() && write < read && Digit1 <= c <= Digit9 && c == input[read - 1]
      modifies this, data
      ensures r.Ok? ==> Resumed(r.value, old(read))
      ensures ArabicOutcome(r, old(lines), old(texts), old(refCount), old(Cur()), DigitEnd(input, old(read)))
    {
      var p := ScanDigits(read);
      r := ArabicLine(p);
    }

    /** The rest of `tokenise_ordered_list_arabic`, once the digits end at p. */
    method ArabicLine(p: nat) returns (r: Result<byte, TokeniseError>)
      requires Closed() && write < read && Digit1 <= c <= Digit9 && c == input[read - 1]
      requires p == DigitEnd(input, read)
      modifies this, data
      ensures r.Ok? ==> Resumed(r.value, old(read))
      ensures ArabicOutcome(r, old(lines), old(texts), old(refCount), old(Cur()), p)
    {
      if data[p] == Period && p + 1 < data.Length && data[p + 1] == Space {
        r := NumberedItem(OrderedListArabic, Period, p);
        assert NumberedOutcome(r, old(lines), old(texts), old(refCount), old(Cur()), p, OrderedListArabic);
        assert MarkerEnd(input, p, Period);
      } else {
        r := TokeniseParagraph(c, false);
        assert ParagraphOutcome(r, old(lines), old(texts), old(refCount), old(Cur()), false);
        assert !MarkerEnd(input, p, Period);
      }
    }

    /** `arabic_to_int` on the digits from the current character up to the terminator at p. */
    method NumberBefore(terminator: byte, p: nat) returns (index: Option<nat>)
      requires Buffer() && write < read < data.Length && IsDigit(input[read - 1])
      requires p == DigitEnd(input, read) && input[p] == terminator
      ensures p - (read - 1) > DigitSlots ==> index.None?
      ensures p - (read - 1) <= DigitSlots ==> index == Some(Positional(DigitValues(input[read - 1 .. p])) % U32)
    {
      RunLengthOfRun(input, read - 1, p, terminator);
      index := ArabicAt(read - 1, terminator, p);
    }

    /** A numbered line whose digits run from the character at `cur` up to p, where a
        terminator and a space follow them: too many digits are an error; otherwise the
        line's index is the number they spell and its text is read after the marker. */
    ghost predicate NumberedOutcome(r: Result<byte, TokeniseError>, before: seq<LineToken>, beforeTexts: seq<seq<TextUnit>>,
                                    refs: nat, cur: Cursor, p: nat, kind: LineTokenType)
      requires Scannable(input, cur) && 0 < cur.read <= p && p + 1 < |input| && input[p + 1] == Space
      reads this
    {
      (p - (cur.read - 1) > DigitSlots ==> r == Err(TokeniseError(NumberTooLong, cur.at.line, cur.at.column)))
      && (p - (cur.read - 1) <= DigitSlots ==>
            LineRead(r, before, beforeTexts, kind, Positional(DigitValues(input[cur.read - 1 .. p])) % U32,
              cur.at.line, TextAfter(input, MovedTo(input, cur, p + 2), refs)))
    }

    /** A numbered line whose digits, from the current character, end at the terminator
        at p, followed by a space: its index is the number they spell. */
    method NumberedItem(kind: LineTokenType, terminator: byte, p: nat) returns (r: Result<byte, TokeniseError>)
      requires Closed() && write < read < data.Length && IsDigit(input[read - 1])
      requires p == DigitEnd(input, read) && p + 1 < data.Length && input[p] == terminator && input[p + 1] == Space
      requires kind == OrderedListArabic || kind == Reference
      modifies this, data
      ensures r.Ok? ==> Resumed(r.value, old(read))
      ensures NumberedOutcome(r, old(lines), old(texts), old(refCount), old(Cur()), p, kind)
    {
      ghost var cur := Cur();
      var index := NumberBefore(terminator, p);
      if index.None? {
        return Err(TokeniseError(NumberTooLong, line, column));
      }
      // `tokenise_ordered_list_*` adds the token first and moves the read offset after
      // the index is known; the token records its kind, index, line and where its text
      // starts in the output, none of which moving the read offset changes, and an error
      // ends the run, so adding it here, just before its text, gives the same token.
      SetReadPtr(p + 2);
      assert Cur() == MovedTo(input, cur, p + 2) && line == cur.at.line;
      r := MarkedLine(kind, index.value);
    }

    /** What `tokenise_ordered_list_roman` does from the first numeral letter, at `cur`,
        when the letters end at p: letters then ". " make a numbered item whose index is
        the numeral's place in the table and whose text is read after the marker; a
        numeral beyond the table is an error; anything else is a paragraph from the first
        letter on. */
    ghost predicate RomanOutcome(r: Result<byte, TokeniseError>, before: seq<LineToken>, beforeTexts: seq<seq<TextUnit>>,
                                 refs: nat, cur: Cursor, p: nat)
      requires Scannable(input, cur) && 0 < cur.read <= p < |input|
      reads this
    {
      (MarkerEnd(input, p, Period) ==> NumeralOutcome(r, before, beforeTexts, refs, cur, p))
      && (!MarkerEnd(input, p, Period) ==> ParagraphOutcome(r, before, beforeTexts, refs, cur, false))
    }

    /** `tokenise_ordered_list_roman`: numeral letters then ". " make a numbered item whose
        index is the position of the numeral in the table of canonical numerals `I`..`XXVI`;
        a marker beyond the table is an error, and anything else starts a paragraph. */
    method TokeniseOrderedListRoman() returns (r: Result<byte, TokeniseError>)
      requires Closed() && write < read && IsRomanByte(c) && c == input[read - 1]
      modifies this, data
      ensures r.Ok? ==> Resumed(r.value, old(read))
      ensures RomanOutcome(r, old(lines), old(texts), old(refCount), old(Cur()), RomanEnd(input, old(read)))
    {
      var p := ScanRoman(read);
      r := RomanLine(p);
    }

    /** The rest of `tokenise_ordered_list_roman`, once the numeral letters end at p. */
    method RomanLine(p: nat) returns (r: Result<byte, TokeniseError>)
      requires Closed() && write < read && IsRomanByte(c) && c == input[read - 1]
      requires p == RomanEnd(input, read)
      modifies this, data
      ensures r.Ok? ==> Resumed(r.value, old(read))
      ensures RomanOutcome(r, old(lines), old(texts), old(refCount), old(Cur()), p)
    {
      if data[p] == Period && p + 1 < data.Length && data[p + 1] == Space {
        r := RomanItem(p);
        assert NumeralOutcome(r, old(lines), old(texts), old(refCount), old(Cur()), p);
        assert MarkerEnd(input, p, Period);
      } else {
        r := TokeniseParagraph(c, false);
        assert ParagraphOutcome(r, old(lines), old(texts), old(refCount), old(Cur()), false);
        assert !MarkerEnd(input, p, Period);
      }
    }

    /** A numeral line whose letters run from the character at `cur` up to p, where ". "
        follows them: a numeral beyond the table is an error; otherwise the line's index
        is the numeral's place in the table and its text is read after the marker. */
    ghost predicate NumeralOutcome(r: Result<byte, TokeniseError>, before: seq<LineToken>, beforeTexts: seq<seq<TextUnit>>,
                                   refs: nat, cur: Cursor, p: nat)
      requires Scannable(input, cur) && 0 < cur.read <= p && p + 1 < |input| && input[p + 1] == Space
      reads this
    {
      (NumeralValue(input[cur.read - 1 .. p]).None? ==> r == Err(TokeniseError(RomanNumeralTooLarge, cur.at.line, cur.at.column)))
      && (NumeralValue(input[cur.read - 1 .. p]).Some? ==>
            LineRead(r, before, beforeTexts, OrderedListRoman, NumeralValue(input[cur.read - 1 .. p]).value,
              cur.at.line, TextAfter(input, MovedTo(input, cur, p + 2), refs)))
    }

    /** The numbered branch of `tokenise_ordered_list_roman`: the table lookup with a
        bounded comparison over the marker's length. */
    method RomanItem(p: nat) returns (r: Result<byte, TokeniseError>)
      requires Closed() && write < read < data.Length && IsRomanByte(input[read - 1])
      requires p == RomanEnd(input, read) && MarkerEnd(input, p, Period)
      modifies this, data
      ensures r.Ok? ==> Resumed(r.value, old(read))
      ensures NumeralOutcome(r, old(lines), old(texts), old(refCount), old(Cur()), p)
    {
      ghost var cur := Cur();
      var index := NumeralIndex(p);
      if index.None? {
        return Err(TokeniseError(RomanNumeralTooLarge, line, column));
      }
      // `tokenise_ordered_list_*` adds the token first and moves the read offset after
      // the index is known; the token records its kind, index, line and where its text
      // starts in the output, none of which moving the read offset changes, and an error
      // ends the run, so adding it here, just before its text, gives the same token.
      SetReadPtr(p + 2);
      assert Cur() == MovedTo(input, cur, p + 2) && line == cur.at.line;
      r := MarkedLine(OrderedListRoman, index.value);
    }

    /** The table lookup of `tokenise_ordered_list_roman`: strncmp of the buffer from the
        numeral on against each entry, over the numeral's length plus the ". ". */
    method NumeralIndex(p: nat) returns (index: Option<nat>)
      requires Buffer() && write < read < data.Length && IsRomanByte(input[read - 1])
      requires p == RomanEnd(input, read) && MarkerEnd(input, p, Period)
      ensures index == NumeralValue(input[read - 1 .. p])
    {
      ghost var n := input[read - 1 .. p];
      ghost var rest := input[p + 2..];
      RomanMarker(input, read - 1, p);
      assert data[read - 1..] == input[read - 1..];
      index := LookupRoman(data[read - 1..], p + 2 - read + 1);
      LookupMeaning(n, rest, index);
    }

    /** What `tokenise_ordered_list_letter` does from the letter at `cur`: the letter then
        ". " make a numbered item whose index is the letter's place in the alphabet and
        whose text is read after the marker; anything else is a paragraph, of a quotation
        when `blockquote`, from the letter on. */
    ghost predicate LetterOutcome(r: Result<byte, TokeniseError>, before: seq<LineToken>, beforeTexts: seq<seq<TextUnit>>,
                                  refs: nat, cur: Cursor, blockquote: bool)
      requires Scannable(input, cur) && LowerA <= cur.c <= LowerZ
      reads this
    {
      (MarkerEnd(input, cur.read, Period) ==>
        LineRead(r, before, beforeTexts, OrderedListLetter, (cur.c - LowerA) as nat + 1,
          cur.at.line, TextAfter(input, MovedTo(input, cur, cur.read + 2), refs)))
      && (!MarkerEnd(input, cur.read, Period) ==> ParagraphOutcome(r, before, beforeTexts, refs, cur, blockquote))
    }

    /** `tokenise_ordered_list_letter`: a lower-case letter then ". " makes a numbered
        item whose index is the letter's place in the alphabet; anything else starts a
        paragraph. */
    method TokeniseOrderedListLetter(blockquote: bool) returns (r: Result<byte, TokeniseError>)
      requires Closed() && write < read && LowerA <= c <= LowerZ
      modifies this, data
      ensures r.Ok? ==> Resumed(r.value, old(read))
      ensures LetterOutcome(r, old(lines), old(texts), old(refCount), old(Cur()), blockquote)
    {
      if data[read] == Period && read + 1 < data.Length && data[read + 1] == Space {
        var index := (c - LowerA) as nat + 1;
        SetReadPtr(read + 2);
        r := MarkedLine(OrderedListLetter, index);
      } else {
        r := TokeniseParagraph(c, blockquote);
      }
    }

    /** What `tokenise_unordered_list` does from the `*` at `cur`: `*` then a space make a
        bullet item, whose token is added once the space is read and whose text follows
        it; anything else is a paragraph from the `*` on. */
    ghost predicate UnorderedOutcome(r: Result<byte, TokeniseError>, before: seq<LineToken>, beforeTexts: seq<seq<TextUnit>>,
                                     refs: nat, cur: Cursor)
      requires Scannable(input, cur) && cur.c != Nul
      reads this
    {
      (input[cur.read] == Space ==>
        LineRead(r, before, beforeTexts, UnorderedList, 0, cur.next.line, TextAfter(input, ReadPlain(input, cur), refs)))
      && (input[cur.read] != Space ==> ParagraphOutcome(r, before, beforeTexts, refs, cur, false))
    }

    /** `tokenise_unordered_list`: `*` then a space makes a bullet item; anything else
        (emphasis, say) starts a paragraph. */
    method TokeniseUnorderedList() returns (r: Result<byte, TokeniseError>)
      requires Closed() && write < read && c == Asterisk
      modifies this, data
      ensures r.Ok? ==> Resumed(r.value, old(read))
      ensures UnorderedOutcome(r, old(lines), old(texts), old(refCount), old(Cur()))
    {
      if data[read] == Space {
        AdvancePlain(input, Cur());
        var space := GetFilteredChar();
        r := MarkedLine(UnorderedList, 0);
      } else {
        r := TokeniseParagraph(c, false);
      }
    }

    /** What `tokenise_blockquote` does from the tab at `cur`: the next character is read;
        a line feed makes an empty line of the quotation, anything else a paragraph of it,
        whose text starts at that character. */
    ghost predicate QuoteOutcome(r: Result<byte, TokeniseError>, before: seq<LineToken>, beforeTexts: seq<seq<TextUnit>>,
                                 refs: nat, cur: Cursor)
      requires Scannable(input, cur) && cur.c != Nul
      reads this
    {
      var next := Advance(input, cur);
      (next.Err? ==> r == Err(next.error))
      && (next.Ok? && next.value.c == LineFeed ==> NewlineOutcome(r, before, beforeTexts, refs, next.value, true))
      && (next.Ok? && next.value.c != LineFeed ==>
            LineRead(r, before, beforeTexts, BlockParagraph, 0, next.value.at.line, TextAfter(input, cur, refs)))
    }

    /** `tokenise_blockquote`: after a tab, an empty line or a paragraph of the quotation. */
    method TokeniseBlockquote() returns (r: Result<byte, TokeniseError>)
      requires Closed() && write < read && c == Tab
      modifies this, data
      ensures r.Ok? ==> Resumed(r.value, old(read))
      ensures r.Ok? ==> LineAdded(old(lines), old(texts), BlockNewline, 0) || LineAdded(old(lines), old(texts), BlockParagraph, 0)
      ensures input[old(read)] == LineFeed && r.Ok? ==> LineAdded(old(lines), old(texts), BlockNewline, 0)
      ensures input[old(read)] != LineFeed && input[old(read)] != CarriageReturn && input[old(read)] != Slash && r.Ok?
        ==> LineAdded(old(lines), old(texts), BlockParagraph, 0)
      ensures QuoteOutcome(r, old(lines), old(texts), old(refCount), old(Cur()))
    {
      var ch :- NextUncommented();
      if ch == LineFeed {
        r := TokeniseNewline(true);
      } else {
        r := TokeniseParagraph(ch, true);
      }
    }

    /** `get_filtered_char` where the next byte decides: a byte other than `/` cannot open
        a comment, so it is the character read (a CR LF pair reads as LF), and a printable
        one is always accepted. */
    method NextUncommented() returns (r: Result<byte, TokeniseError>)
      requires Valid() && read < data.Length
      modifies this
      ensures r.Ok? ==> Valid() && read > old(read) && r.value == c == input[read - 1] && Out() == old(Out())
      ensures input[old(read)] != Slash && input[old(read)] != CarriageReturn && r.Ok?
        ==> r.value == input[old(read)] && read == old(read) + 1
      ensures input[old(read)] == CarriageReturn && r.Ok? ==> r.value == LineFeed
      ensures Space <= input[old(read)] < Delete && input[old(read)] != Slash ==> r.Ok? && Cur() == ReadPlain(input, old(Cur()))
      ensures Advance(input, old(Cur())).Ok? <==> r.Ok?
      ensures r.Ok? ==> Cur() == Advance(input, old(Cur())).value
      ensures r.Err? ==> r.error == Advance(input, old(Cur())).error
    {
      if Space <= data[read] < Delete && data[read] != Slash {
        AdvancePlain(input, Cur());
      } else if data[read] != Slash {
        AdvanceNoComment(input, Cur());
      }
      r := GetFilteredChar();
    }

    /** What `tokenise_bracket` does from the `[` at `cur`: the next character is read,
        and decides as `BracketRead` says. */
    ghost predicate BracketOutcome(r: Result<byte, TokeniseError>, before: seq<LineToken>, beforeTexts: seq<seq<TextUnit>>,
                                   refs: nat, cur: Cursor)
      requires Scannable(input, cur) && cur.c != Nul
      reads this
    {
      var next := Advance(input, cur);
      (next.Err? ==> r == Err(next.error))
      && (next.Ok? ==> BracketRead(r, before, beforeTexts, refs, next.value))
    }

    /** `tokenise_bracket`: after `[`, digits then `] ` make a reference line whose index
        is the number the digits spell; `[]` and a leading `0` are errors; anything else
        is a metadata line, skipped up to and past its line feed. When no comment follows
        the `[`, its next byte decides. */
    method TokeniseBracket() returns (r: Result<byte, TokeniseError>)
      requires Closed() && write < read && c == OpenBracket
      modifies this, data
      ensures r.Ok? ==> Resumed(r.value, old(read))
      ensures r.Ok? ==> ((lines == old(lines) && texts == old(texts))
        || (|lines| == |old(lines)| + 1 && LineAdded(old(lines), old(texts), Reference, lines[|old(lines)|].index)))
      ensures var b := input[old(read)];
        b != Slash ==>
          (b == CloseBracket ==> r.Err? && r.error.kind == EmptyBrackets)
          && (b == Digit0 ==> r.Err? && r.error.kind == BracketStartsWithZero)
          && (b != CloseBracket && !IsDigit(b) && r.Ok? ==> lines == old(lines) && texts == old(texts))
      ensures Digit1 <= input[old(read)] <= Digit9 ==>
        ReferenceRead(r, old(lines), old(texts), old(refCount), ReadPlain(input, old(Cur())), DigitEnd(input, old(read) + 1))
      ensures BracketOutcome(r, old(lines), old(texts), old(refCount), old(Cur()))
    {
      var ch :- NextUncommented();
      r := BracketLine(ch);
    }

    /** `tokenise_bracket` once the character after the `[` is read, at `cur`: `[]` and a
        leading `0` are errors; digits must be followed by `] ` and make a reference line
        whose index is the number they spell and whose text is read after the marker;
        anything else is a metadata line, which adds no token. */
    ghost predicate BracketRead(r: Result<byte, TokeniseError>, before: seq<LineToken>, beforeTexts: seq<seq<TextUnit>>,
                                refs: nat, cur: Cursor)
      requires Scannable(input, cur) && 0 < cur.read && cur.c == input[cur.read - 1]
      reads this
    {
      var ch := cur.c;
      (ch == CloseBracket ==> r == Err(TokeniseError(EmptyBrackets, cur.at.line, cur.at.column)))
      && (ch == Digit0 ==> r == Err(TokeniseError(BracketStartsWithZero, cur.at.line, cur.at.column)))
      && (ch != CloseBracket && !IsDigit(ch) && r.Ok? ==> lines == before && texts == beforeTexts)
      && (ch != CloseBracket && !IsDigit(ch) ==> ReadAs(r, SkipSpec(input, cur)))
      && (Digit1 <= ch <= Digit9 ==> ReferenceRead(r, before, beforeTexts, refs, cur, DigitEnd(input, cur.read)))
    }

    /** A reference line whose digits run from the character at `cur` up to p: `] ` must
        follow them, and the line's index is the number they spell and its text is read
        after the marker. */
    ghost predicate ReferenceRead(r: Result<byte, TokeniseError>, before: seq<LineToken>, beforeTexts: seq<seq<TextUnit>>,
                                  refs: nat, cur: Cursor, p: nat)
      requires Scannable(input, cur) && 0 < cur.read <= p < |input|
      reads this
    {
      (input[p] != CloseBracket ==> r == Err(TokeniseError(ReferenceNotNumeric, cur.at.line, cur.at.column)))
      && (input[p] == CloseBracket && !MarkerEnd(input, p, CloseBracket) ==>
            r == Err(TokeniseError(ReferenceWithoutSpace, cur.at.line, cur.at.column)))
      && (r.Ok? ==> MarkerEnd(input, p, CloseBracket) && p - (cur.read - 1) <= DigitSlots)
      && (MarkerEnd(input, p, CloseBracket) ==> NumberedOutcome(r, before, beforeTexts, refs, cur, p, Reference))
    }

    /** The rest of `tokenise_bracket`, once the character after `[` is read. */
    method BracketLine(ch: byte) returns (r: Result<byte, TokeniseError>)
      requires Closed() && write < read && ch == c == input[read - 1]
      modifies this, data
      ensures r.Ok? ==> Resumed(r.value, old(read))
      ensures r.Ok? ==> ((lines == old(lines) && texts == old(texts))
        || (|lines| == |old(lines)| + 1 && LineAdded(old(lines), old(texts), Reference, lines[|old(lines)|].index)))
      ensures BracketRead(r, old(lines), old(texts), old(refCount), old(Cur()))
    {
      if ch == CloseBracket {
        return Err(TokeniseError(EmptyBrackets, line, column));
      } else if ch == Digit0 {
        return Err(TokeniseError(BracketStartsWithZero, line, column));
      } else if Digit1 <= ch <= Digit9 {
        var p := ScanDigits(read);
        r := ReferenceLine(p);
      } else {
        r := SkipMetadata();
      }
    }

    /** The reference branch of `tokenise_bracket`, once the digits end at p: a `]` and a
        space must follow them. */
    method ReferenceLine(p: nat) returns (r: Result<byte, TokeniseError>)
      requires Closed() && write < read && Digit1 <= c <= Digit9 && c == input[read - 1]
      requires p == DigitEnd(input, read)
      modifies this, data
      ensures r.Ok? ==> Resumed(r.value, old(read))
      ensures ReferenceRead(r, old(lines), old(texts), old(refCount), old(Cur()), p)
    {
      if data[p] != CloseBracket {
        return Err(TokeniseError(ReferenceNotNumeric, line, column));
      } else if data[p + 1] != Space {
        return Err(TokeniseError(ReferenceWithoutSpace, line, column));
      }
      r := NumberedItem(Reference, CloseBracket, p);
    }

    /** The metadata branch of `tokenise_bracket`: characters are read and dropped up to a
        line feed, then the character after it is read. The character already in hand is
        dropped unexamined, even a line feed. */
    method SkipMetadata() returns (r: Result<byte, TokeniseError>)
      requires Closed() && write < read
      modifies this
      ensures r.Ok? ==> Resumed(r.value, old(read))
      ensures Out() == old(Out())
      ensures ReadAs(r, SkipSpec(input, old(Cur())))
    {
      var lf :- DropToLineFeed();
      r := GetFilteredChar();
    }

    /** The loop of the metadata branch: characters are dropped until a line feed is read. */
    method DropToLineFeed() returns (r: Result<byte, TokeniseError>)
      requires Closed() && write < read
      modifies this
      ensures r.Ok? ==> Closed() && write < read && read > old(read) && c == input[read - 1]
      ensures Out() == old(Out())
      ensures ReadAs(r, LineFeedSpec(input, old(Cur())))
    {
      var ch := c;
      while true
        invariant Closed() && write < read && ch == c && read >= old(read) && Out() == old(Out())
        invariant LineFeedSpec(input, Cur()) == LineFeedSpec(input, old(Cur()))
        decreases data.Length - read
      {
        if ch == Nul {
          return Err(TokeniseError(EndOfInputInLine, line, column));
        }
        ch :- GetFilteredChar();
        if ch == LineFeed {
          return Ok(ch);
        }
      }
    }

    /** The last token, if one was added to `before`, is one the first character of its
        line allows; only a metadata line adds none. */
    ghost predicate LineClassified(before: seq<LineToken>, beforeTexts: seq<seq<TextUnit>>, first: byte)
      reads this`lines, this`texts
    {
      (first == OpenBracket && lines == before && texts == beforeTexts)
      || (|lines| == |before| + 1 && LineAdded(before, beforeTexts, lines[|before|].kind, lines[|before|].index)
          && KindFor(first, lines[|before|].kind))
    }

    /** What one pass of the loop of `tokenise` does from the line's first character, at
        `cur`: that character selects the handler whose outcome the line has. */
    ghost predicate LineOutcome(r: Result<byte, TokeniseError>, before: seq<LineToken>, beforeTexts: seq<seq<TextUnit>>,
                                refs: nat, cur: Cursor)
      requires Scannable(input, cur) && 0 < cur.read && cur.c != Nul && cur.c == input[cur.read - 1]
      reads this
    {
      var ch := cur.c;
      (ch == OpenBracket ==> BracketOutcome(r, before, beforeTexts, refs, cur))
      && (ch == Tab ==> QuoteOutcome(r, before, beforeTexts, refs, cur))
      && (ch == LineFeed ==> NewlineOutcome(r, before, beforeTexts, refs, cur, false))
      && (ch == Hash ==> HeadingOutcome(r, before, beforeTexts, refs, cur))
      && (ch != OpenBracket && ch != Tab && ch != LineFeed && ch != Hash ==> OtherOutcome(r, before, beforeTexts, refs, cur))
    }

    /** One pass of the loop of `tokenise`: the first character of the line selects its
        handler. */
    method TokeniseLine() returns (r: Result<byte, TokeniseError>)
      requires Closed() && write < read && c != Nul && c == input[read - 1]
      modifies this, data
      ensures r.Ok? ==> Resumed(r.value, old(read))
      ensures r.Ok? ==> LineClassified(old(lines), old(texts), old(c))
      ensures LineOutcome(r, old(lines), old(texts), old(refCount), old(Cur()))
    {
      if c == OpenBracket {
        r := TokeniseBracket();
      } else if c == Tab {
        r := TokeniseBlockquote();
      } else if c == LineFeed {
        r := TokeniseNewline(false);
      } else if c == Hash {
        r := TokeniseHeading();
      } else {
        r := TokeniseOtherLine();
      }
    }

    /** What the rest of the classifier does from the line's first character, at `cur`:
        a list marker's handler, or else a paragraph from that character on. */
    ghost predicate OtherOutcome(r: Result<byte, TokeniseError>, before: seq<LineToken>, beforeTexts: seq<seq<TextUnit>>,
                                 refs: nat, cur: Cursor)
      requires Scannable(input, cur) && 0 < cur.read && cur.c != Nul
      reads this
    {
      var ch := cur.c;
      (ch == Asterisk ==> UnorderedOutcome(r, before, beforeTexts, refs, cur))
      && (Digit1 <= ch <= Digit9 ==> ArabicOutcome(r, before, beforeTexts, refs, cur, DigitEnd(input, cur.read)))
      && (LowerA <= ch <= LowerZ ==> LetterOutcome(r, before, beforeTexts, refs, cur, false))
      && (ch == UpperI || ch == UpperV || ch == UpperX ==>
            RomanOutcome(r, before, beforeTexts, refs, cur, RomanEnd(input, cur.read)))
      && ((ch != Asterisk && !(Digit1 <= ch <= Digit9) && !(LowerA <= ch <= LowerZ)
           && ch != UpperI && ch != UpperV && ch != UpperX) ==> ParagraphOutcome(r, before, beforeTexts, refs, cur, false))
    }

    /** The rest of the classifier: list markers, or else a paragraph. */
    method TokeniseOtherLine() returns (r: Result<byte, TokeniseError>)
      requires Closed() && write < read && c != Nul && c == input[read - 1]
      requires c != OpenBracket && c != Tab && c != LineFeed && c != Hash
      modifies this, data
      ensures r.Ok? ==> Resumed(r.value, old(read))
      ensures r.Ok? ==> LineClassified(old(lines), old(texts), old(c))
      ensures OtherOutcome(r, old(lines), old(texts), old(refCount), old(Cur()))
    {
      if c == Asterisk {
        r := TokeniseUnorderedList();
      } else if Digit1 <= c <= Digit9 {
        r := TokeniseOrderedListArabic();
      } else if LowerA <= c <= LowerZ {
        r := TokeniseOrderedListLetter(false);
      } else if c == UpperI || c == UpperV || c == UpperX {
        r := TokeniseOrderedListRoman();
      } else {
        r := TokeniseParagraph(c, false);
      }
    }

    /** `tokenise`: lines are classified until the terminator; a Newline and an Eof token
        close the list. Every text run the tokens point at decodes to valid, balanced text. */
    method Run() returns (r: Result<seq<LineToken>, TokeniseError>)
      requires Closed() && read == 0 && write == 0 && lines == [] && texts == []
      modifies this, data
      ensures r.Ok? ==> r.value == lines && TokensValid(data[..], lines, texts)
      ensures r.Ok? ==> |lines| >= 2 && lines[|lines| - 2].kind == Newline && lines[|lines| - 1].kind == Eof
    {
      var ch :- GetFilteredChar();
      while ch != Nul
        invariant Closed() && write < read && ch == c == input[read - 1]
        decreases data.Length - read
      {
        ch :- TokeniseLine();
      }
      Finish();
      return Ok(lines);
    }

    /** The end of `tokenise`: the closing Newline and Eof tokens. */
    method Finish()
      requires Closed()
      modifies this
      ensures TokensValid(data[..], lines, texts)
      ensures lines == old(lines) + [LineToken(Newline, line, write, 0, 0), LineToken(Eof, line, write, 0, 0)]
    {
      AddLineToken(Newline, 0);
      AddLineToken(Eof, 0);
      assert ClosedText();
      assert data[..write] <= data[..];
      TokensValidExtend(data[..write], data[..], lines, texts);
    }
  }

  /** Tokenising a NUL-terminated buffer, rewriting it in place. */
  method TokeniseBuffer(buffer: array<byte>) returns (r: Result<seq<LineToken>, TokeniseError>)
    requires Terminated(buffer[..])
    modifies buffer
    ensures r.Ok? ==> exists texts :: TokensValid(buffer[..], r.value, texts)
    ensures r.Ok? ==> |r.value| >= 2 && r.value[|r.value| - 2].kind == Newline && r.value[|r.value| - 1].kind == Eof
  {
    var t := new Tokeniser(buffer);
    r := t.Run();
  }
}
