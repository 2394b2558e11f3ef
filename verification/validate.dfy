/** The validator: a single-cursor walk over the line tokens that enforces the document
    shape, counts chapters, elements and references, and, where a paragraph's closing
    blank line is followed by more blank lines and then another paragraph, rewrites the
    first of those extra blank lines (the second blank line) into a paragraph break. */
module Validate {
  import opened Wrappers
  import opened Tokens
  import opened ValidateSpec
  import opened ValidateWalk

  datatype ValidateErrorKind =
    | ParagraphWithoutBlank
    | HeadingWithoutBlank
    | ReferenceWithoutBlank
    | PreformattedWithoutBlank
    | QuoteBlankWithoutText
    | QuoteWithoutBlank
    | CitationWithoutBlank
    | BreakWithoutParagraph
    | ListWithoutBlank
    | QuoteStartsWithBlank
    | QuoteStartsWithCitation
    | FirstNotHeading

  /** A fatal validation error, reported at the line of the token read last. */
  datatype ValidateError = ValidateError(kind: ValidateErrorKind, line: nat)

  /** The lines a block quote is made of, and the blank line that ends it. */
  predicate QuoteLine(t: LineTokenType)
  {
    t == BlockNewline || t == BlockParagraph || t == BlockCitation || t == Newline
  }

  /** The branch the block-quote loop takes on a token kind, as written: a kind that is
      none of the quote lines reaches `assert(false)`. */
  datatype QuoteBranch = ToBlockNewline | ToBlockParagraph | ToBlockCitation | EndOfQuote | AssertFalse

  function QuoteDispatch(t: LineTokenType): (b: QuoteBranch)
    ensures b == AssertFalse <==> !QuoteLine(t)
    ensures b == EndOfQuote <==> t == Newline
  {
    if t == BlockNewline then ToBlockNewline
    else if t == BlockParagraph then ToBlockParagraph
    else if t == BlockCitation then ToBlockCitation
    else if t == Newline then EndOfQuote
    else AssertFalse
  }

  /** The token kinds of "# T\n\n\tq\np\n": a heading, a blank line, an indented paragraph
      and then an unindented one. */
  function QuoteThenParagraph(): (ts: seq<LineToken>)
    ensures EndsWithEof(ts)
  {
    [LineToken(Heading1, 1, 0, 0, 1), LineToken(Newline, 2, 0, 0, 0),
     LineToken(BlockParagraph, 3, 0, 0, 1), LineToken(Paragraph, 4, 0, 0, 1),
     LineToken(Newline, 5, 0, 0, 0), LineToken(Eof, 5, 0, 0, 0)]
  }

  /** As written, the walk over this stream reaches the block quote at index 2 with every
      earlier token accepted, reads the paragraph at index 3 and takes the `assert(false)`
      branch, although the stream is simply malformed. */
  lemma QuoteThenParagraphAsserts()
    ensures var ts := QuoteThenParagraph();
      Opening(ts) && NewlineEnd(ts, 0) == 0 && Follows(ts, 0) && Follows(ts, 1)
      && ts[2].kind == BlockParagraph && QuoteDispatch(ts[3].kind) == AssertFalse
      && !WellFormed(ts)
  {
    var ts := QuoteThenParagraph();
    assert !Follows(ts, 2);
  }

  class Validator {
    const tokens: array<LineToken>
    /** The tokens as they were handed over. */
    ghost const ts: seq<LineToken>
    var line: nat
    var current: nat
    var chapters: nat
    var elements: nat
    var references: nat

    /** The cursor and the counters agree with the walk: the token at c was read last. */
    ghost predicate At(c: nat)
      reads this`current, this`line, this`chapters, this`elements, this`references
    {
      EndsWithEof(ts) && c < |ts| && tokens.Length == |ts| && current == c + 1 && line == ts[c].line
      && MemReq(chapters, elements, references) == Tally(ts, c)
    }

    /** The breaks among the first n tokens are rewritten, the other tokens untouched. */
    ghost predicate Rewritten(n: nat)
      reads tokens
    {
      EndsWithEof(ts) && n <= |ts| && tokens[..] == RewrittenUpTo(ts, n)
    }

    /** The state between two dispatches of the main loop: the token at t is next. */
    ghost predicate Inv(t: nat)
      reads this, tokens
    {
      Reached(ts, t) && At(t) && Rewritten(t)
    }

    constructor (tokens: array<LineToken>)
      requires EndsWithEof(tokens[..])
      ensures this.tokens == tokens && ts == tokens[..]
      ensures current == 0 && line == 0 && chapters == 0 && elements == 0 && references == 0
    {
      this.tokens := tokens;
      ts := tokens[..];
      line, current := 0, 0;
      chapters, elements, references := 0, 0, 0;
    }

    /** `validate_get_next_token`. The ghost n says how far the breaks have been rewritten:
        the token read lies beyond that point, so it is still the one the tokeniser gave. */
    method NextToken(ghost n: nat) returns (token: LineToken)
      requires Rewritten(n) && n <= current < tokens.Length
      modifies this`current, this`line
      ensures token == tokens[old(current)] && current == old(current) + 1 && line == token.line
      ensures token == ts[old(current)]
    {
      token := tokens[current];
      current := current + 1;
      line := token.line;
    }

    /** The further lines of a run of paragraph lines or list items, the first of which was
        read last: each counts two elements in a paragraph and one in a list. Returns the
        first token past the run. */
    method RunLines(kind: LineTokenType, token: LineToken) returns (next: LineToken)
      requires current >= 1 && At(current - 1) && Rewritten(current - 1) && InRun(ts, current - 1, kind)
      requires token == ts[current - 1] && (kind == Paragraph || IsList(kind))
      modifies this`current, this`line, this`elements
      ensures old(current) <= current && At(current - 1) && Rewritten(current - 1)
      ensures InRun(ts, current - 1, kind) && next == ts[current - 1] && next.kind != kind
    {
      next := token;
      while next.kind == kind
        invariant old(current) <= current && At(current - 1) && Rewritten(current - 1)
        invariant InRun(ts, current - 1, kind) && next == ts[current - 1]
        decreases |ts| - current
      {
        RunMore(ts, current - 1, kind);
        elements := elements + if kind == Paragraph then 2 else 1;
        next := NextToken(current - 1);
      }
    }

    /** `validate_paragraph`: a run of paragraph lines, which must end with a blank line;
        when further blank lines and then a paragraph follow, the first extra blank line
        becomes a paragraph break. Returns the token after the blank lines. */
    method ValidateParagraph(token: LineToken) returns (r: Result<LineToken, ValidateError>)
      requires current >= 1 && Inv(current - 1) && token == ts[current - 1] && token.kind == Paragraph
      modifies this`current, this`line, this`elements, tokens
      ensures r.Ok? ==> old(current) < current && Inv(current - 1) && r.value == ts[current - 1]
      ensures r.Ok? ==> r.value.kind != Newline
      ensures r.Err? ==> r.error.kind == ParagraphWithoutBlank && !WellFormed(ts)
    {
      RunStart(ts, current - 1);
      elements := elements + 3;
      var next := NextToken(current - 1);
      next := RunLines(Paragraph, next);
      if next.kind != Newline {
        RunBroken(ts, current - 1, Paragraph);
        return Err(ValidateError(ParagraphWithoutBlank, line));
      }
      ParagraphEnd(ts, current - 1);
      next := NextToken(current - 1);
      if next.kind == Newline {
        next := BlankLines(next);
      }
      return Ok(next);
    }

    /** The blank lines after a paragraph's first one, the first of which was read last:
        when a paragraph follows them, the first of them is rewritten as a paragraph break.
        Returns the first token past them. */
    method BlankLines(token: LineToken) returns (next: LineToken)
      requires current >= 1 && At(current - 1) && Rewritten(current - 1) && Blanks(ts, current - 1, current - 1)
      requires token == ts[current - 1]
      modifies this`current, this`line, tokens
      ensures old(current) < current && Inv(current - 1) && next == ts[current - 1] && next.kind != Newline
    {
      var brk := current - 1;
      BlanksStep(ts, brk, brk);
      next := NextToken(brk);
      while next.kind == Newline
        invariant At(current - 1) && Rewritten(brk) && Blanks(ts, brk, current - 1)
        invariant next == ts[current - 1] && brk < current - 1
        decreases |ts| - current
      {
        BlanksStep(ts, brk, current - 1);
        next := NextToken(brk);
      }
      BlanksEnd(ts, brk, current - 1);
      if next.kind == Paragraph {
        tokens[brk] := tokens[brk].(kind := ParagraphBreak);
      }
    }

    /** `validate_heading`: a heading counts one element, a level-one heading also one
        chapter, and must be followed by a blank line. */
    method ValidateHeading(token: LineToken) returns (r: Result<LineToken, ValidateError>)
      requires current >= 1 && Inv(current - 1) && token == ts[current - 1] && IsHeading(token.kind)
      modifies this`current, this`line, this`elements, this`chapters
      ensures r.Ok? ==> current == old(current) + 1 && Inv(current - 1) && r.value == ts[current - 1]
      ensures r.Ok? ==> r.value.kind == Newline
      ensures r.Err? ==> r.error.kind == HeadingWithoutBlank && !WellFormed(ts)
    {
      ClosedLine(ts, current - 1);
      var level := HeadingLevel(token.kind);
      HeadingDepthRoundTrip(0, token.kind);
      OrdinalInjective(token.kind, Heading1);
      elements := elements + 1;
      chapters := chapters + if level == 0 then 1 else 0;
      var next := NextToken(current - 1);
      if next.kind != Newline {
        return Err(ValidateError(HeadingWithoutBlank, line));
      }
      return Ok(next);
    }

    /** `validate_reference`: a reference counts one reference and must be followed by a
        blank line. */
    method ValidateReference(token: LineToken) returns (r: Result<LineToken, ValidateError>)
      requires current >= 1 && Inv(current - 1) && token == ts[current - 1] && token.kind == Reference
      modifies this`current, this`line, this`references
      ensures r.Ok? ==> current == old(current) + 1 && Inv(current - 1) && r.value == ts[current - 1]
      ensures r.Ok? ==> r.value.kind == Newline
      ensures r.Err? ==> r.error.kind == ReferenceWithoutBlank && !WellFormed(ts)
    {
      ClosedLine(ts, current - 1);
      references := references + 1;
      var next := NextToken(current - 1);
      if next.kind != Newline {
        return Err(ValidateError(ReferenceWithoutBlank, line));
      }
      return Ok(next);
    }

    /** `validate_preformatted`: a preformatted block counts one element and must be
        followed by a blank line. */
    method ValidatePreformatted(token: LineToken) returns (r: Result<LineToken, ValidateError>)
      requires current >= 1 && Inv(current - 1) && token == ts[current - 1] && token.kind == Preformatted
      modifies this`current, this`line, this`elements
      ensures r.Ok? ==> current == old(current) + 1 && Inv(current - 1) && r.value == ts[current - 1]
      ensures r.Ok? ==> r.value.kind == Newline
      ensures r.Err? ==> r.error.kind == PreformattedWithoutBlank && !WellFormed(ts)
    {
      ClosedLine(ts, current - 1);
      elements := elements + 1;
      var next := NextToken(current - 1);
      if next.kind != Newline {
        return Err(ValidateError(PreformattedWithoutBlank, line));
      }
      return Ok(next);
    }

    /** The state inside a block quote whose first indented paragraph is at t: the quote
        line at c was read last. */
    ghost predicate QuoteAt(t: nat, c: nat)
      reads this, tokens
    {
      InQuoteAt(ts, t, c) && At(c) && Rewritten(c)
    }

    /** `validate_block_newline`: a blank indented line counts one element and must be
        followed by an indented paragraph or citation. */
    method ValidateBlockNewline(ghost t: nat, token: LineToken) returns (r: Result<LineToken, ValidateError>)
      requires current >= 1 && QuoteAt(t, current - 1) && token == ts[current - 1] && token.kind == BlockNewline
      modifies this`current, this`line, this`elements
      ensures r.Ok? ==> current == old(current) + 1 && QuoteAt(t, current - 1) && r.value == ts[current - 1]
      ensures r.Ok? ==> r.value.kind == BlockParagraph || r.value.kind == BlockCitation
      ensures r.Err? ==> r.error.kind == QuoteBlankWithoutText && !WellFormed(ts)
    {
      QuoteStep(ts, t, current - 1);
      elements := elements + 1;
      var next := NextToken(current - 1);
      if next.kind != BlockParagraph && next.kind != BlockCitation {
        return Err(ValidateError(QuoteBlankWithoutText, line));
      }
      return Ok(next);
    }

    /** `validate_block_paragraph`: a further indented paragraph counts two elements and
        must be followed by another indented line or a blank line. */
    method ValidateBlockParagraph(ghost t: nat, token: LineToken) returns (r: Result<LineToken, ValidateError>)
      requires current >= 1 && QuoteAt(t, current - 1) && token == ts[current - 1] && token.kind == BlockParagraph
      modifies this`current, this`line, this`elements
      ensures r.Ok? ==> current == old(current) + 1 && QuoteAt(t, current - 1) && r.value == ts[current - 1]
      ensures r.Ok? ==> r.value.kind == BlockParagraph || r.value.kind == BlockNewline || r.value.kind == Newline
      ensures r.Err? ==> r.error.kind == QuoteWithoutBlank && !WellFormed(ts)
    {
      QuoteStep(ts, t, current - 1);
      elements := elements + 2;
      var next := NextToken(current - 1);
      if next.kind != BlockParagraph && next.kind != BlockNewline && next.kind != Newline {
        return Err(ValidateError(QuoteWithoutBlank, line));
      }
      return Ok(next);
    }

    /** `validate_block_citation`: a citation adds no element of its own and must be
        followed by a blank unindented line. */
    method ValidateBlockCitation(ghost t: nat, token: LineToken) returns (r: Result<LineToken, ValidateError>)
      requires current >= 1 && QuoteAt(t, current - 1) && token == ts[current - 1] && token.kind == BlockCitation
      modifies this`current, this`line
      ensures r.Ok? ==> current == old(current) + 1 && QuoteAt(t, current - 1) && r.value == ts[current - 1]
      ensures r.Ok? ==> r.value.kind == Newline
      ensures r.Err? ==> r.error.kind == CitationWithoutBlank && !WellFormed(ts)
    {
      QuoteStep(ts, t, current - 1);
      var next := NextToken(current - 1);
      if next.kind != Newline {
        return Err(ValidateError(CitationWithoutBlank, line));
      }
      return Ok(next);
    }

    /** One round of the loop in `validate_blockquote`: a quote line other than the closing
        blank line goes to its handler. Any other line is reported as a quote without a
        blank line, where the source reaches `assert(false)`. */
    method ValidateQuoteLine(ghost t: nat, token: LineToken) returns (r: Result<LineToken, ValidateError>)
      requires current >= 1 && QuoteAt(t, current - 1) && token == ts[current - 1] && token.kind != Newline
      modifies this`current, this`line, this`elements
      ensures r.Ok? ==> current == old(current) + 1 && QuoteAt(t, current - 1) && r.value == ts[current - 1]
      ensures r.Err? ==> !WellFormed(ts)
      ensures r.Err? ==> r.error.kind in {QuoteBlankWithoutText, QuoteWithoutBlank, CitationWithoutBlank}
    {
      match QuoteDispatch(token.kind)
      case ToBlockNewline =>
        r := ValidateBlockNewline(t, token);
      case ToBlockParagraph =>
        r := ValidateBlockParagraph(t, token);
      case ToBlockCitation =>
        r := ValidateBlockCitation(t, token);
      case EndOfQuote =>
        assert false;
      case AssertFalse =>
        QuoteBroken(ts, t, current - 1);
        r := Err(ValidateError(QuoteWithoutBlank, line));
    }

    /** `validate_blockquote`: a block quote counts five elements and runs over quote lines
        up to a blank unindented line. */
    method ValidateBlockquote(token: LineToken) returns (r: Result<LineToken, ValidateError>)
      requires current >= 1 && Inv(current - 1) && token == ts[current - 1] && token.kind == BlockParagraph
      modifies this`current, this`line, this`elements
      ensures r.Ok? ==> old(current) < current && Inv(current - 1) && r.value == ts[current - 1]
      ensures r.Ok? ==> r.value.kind == Newline
      ensures r.Err? ==> !WellFormed(ts)
      ensures r.Err? ==> r.error.kind in {QuoteBlankWithoutText, QuoteWithoutBlank, CitationWithoutBlank}
    {
      ghost var t := current - 1;
      QuoteStart(ts, t);
      elements := elements + 5;
      var next := NextToken(current - 1);
      while next.kind != Newline
        invariant QuoteAt(t, current - 1) && next == ts[current - 1] && old(current) < current
        decreases |ts| - current
      {
        next :- ValidateQuoteLine(t, next);
      }
      QuoteClosed(ts, t, current - 1);
      return Ok(next);
    }

    /** `validate_paragraph_break`: the blank lines after a paragraph break are skipped and a
        paragraph must follow them. */
    method ValidateParagraphBreak(token: LineToken) returns (r: Result<LineToken, ValidateError>)
      requires current >= 1 && Inv(current - 1) && token == ts[current - 1] && token.kind == ParagraphBreak
      modifies this`current, this`line
      ensures r.Ok? ==> old(current) < current && Inv(current - 1) && r.value == ts[current - 1]
      ensures r.Ok? ==> r.value.kind == Paragraph
      ensures r.Err? ==> r.error.kind == BreakWithoutParagraph && !WellFormed(ts)
    {
      ghost var t := current - 1;
      BreakStart(ts, t);
      var next := NextToken(current - 1);
      while next.kind == Newline
        invariant At(current - 1) && Rewritten(current - 1) && AfterBreak(ts, t, current - 1)
        invariant next == ts[current - 1]
        decreases |ts| - current
      {
        BreakStep(ts, t, current - 1);
        next := NextToken(current - 1);
      }
      BreakEnd(ts, t, current - 1);
      if next.kind != Paragraph {
        return Err(ValidateError(BreakWithoutParagraph, line));
      }
      return Ok(next);
    }

    /** `validate_ordered_list` and `validate_unordered_list`: a list counts three elements
        and each further item of the same kind one, and must be followed by a blank line. */
    method ValidateList(token: LineToken, kind: LineTokenType) returns (r: Result<LineToken, ValidateError>)
      requires current >= 1 && Inv(current - 1) && token == ts[current - 1] && token.kind == kind && IsList(kind)
      modifies this`current, this`line, this`elements
      ensures r.Ok? ==> old(current) < current && Inv(current - 1) && r.value == ts[current - 1]
      ensures r.Ok? ==> r.value.kind == Newline
      ensures r.Err? ==> r.error.kind == ListWithoutBlank && !WellFormed(ts)
    {
      RunStart(ts, current - 1);
      elements := elements + 3;
      var next := NextToken(current - 1);
      next := RunLines(kind, next);
      if next.kind != Newline {
        RunBroken(ts, current - 1, kind);
        return Err(ValidateError(ListWithoutBlank, line));
      }
      ListEnd(ts, current - 1, kind);
      return Ok(next);
    }

    /** The default branch of the dispatch in `validate`: the token is passed over. */
    method SkipToken(token: LineToken) returns (next: LineToken)
      requires current >= 1 && Inv(current - 1) && token == ts[current - 1]
      requires token.kind == Newline || token.kind == NoType || token.kind == Metadata
      modifies this`current, this`line
      ensures current == old(current) + 1 && Inv(current - 1) && next == ts[current - 1]
    {
      PassOver(ts, current - 1);
      next := NextToken(current - 1);
    }

    /** `validate`: blank lines are skipped up to the first printable line, which must be a
        level-one heading; then each token is dispatched to its handler until the first
        `eof`. The walk succeeds exactly on a well-formed stream, and then reports the
        counts of its tokens up to that `eof` and leaves the breaks rewritten. */
    method Run() returns (r: Result<MemReq, ValidateError>)
      requires EndsWithEof(ts) && tokens.Length == |ts| && tokens[..] == ts
      requires current == 0 && chapters == 0 && elements == 0 && references == 0
      modifies this, tokens
      ensures r.Ok? <==> WellFormed(ts)
      ensures r.Ok? ==> r.value == Tally(ts, FirstEof(ts)) && tokens[..] == Rewrite(ts)
    {
      LeadingStart(ts);
      var token := NextToken(0);
      while token.kind == Newline
        invariant At(current - 1) && Rewritten(current - 1) && Leading(ts, current - 1)
        invariant token == ts[current - 1]
        decreases |ts| - current
      {
        LeadingStep(ts, current - 1);
        token := NextToken(current - 1);
      }
      LeadingEnd(ts, current - 1);
      if token.kind != Heading1 {
        return Err(ValidateError(FirstNotHeading, line));
      }
      while true
        invariant current >= 1 && Inv(current - 1) && token == ts[current - 1]
        decreases |ts| - current
      {
        if token.kind == Eof {
          EndOfStream(ts, current - 1);
          return Ok(MemReq(chapters, elements, references));
        }
        token :- Dispatch(token);
      }
    }

    /** One round of the switch in `validate`: the token at hand, which is not the `eof`,
        goes to its handler, which returns the next token to dispatch. */
    method Dispatch(token: LineToken) returns (r: Result<LineToken, ValidateError>)
      requires current >= 1 && Inv(current - 1) && token == ts[current - 1] && token.kind != Eof
      modifies this, tokens
      ensures r.Ok? ==> old(current) < current && Inv(current - 1) && r.value == ts[current - 1]
      ensures r.Err? ==> !WellFormed(ts)
    {
      match token.kind
      case Eof =>
        assert false;
      case Paragraph =>
        r := ValidateParagraph(token);
      case Heading1 | Heading2 | Heading3 =>
        r := ValidateHeading(token);
      case Reference =>
        r := ValidateReference(token);
      case Preformatted =>
        r := ValidatePreformatted(token);
      case BlockNewline =>
        QuoteOpensBadly(ts, current - 1);
        r := Err(ValidateError(QuoteStartsWithBlank, line));
      case BlockCitation =>
        QuoteOpensBadly(ts, current - 1);
        r := Err(ValidateError(QuoteStartsWithCitation, line));
      case BlockParagraph =>
        r := ValidateBlockquote(token);
      case ParagraphBreak =>
        r := ValidateParagraphBreak(token);
      case OrderedListRoman =>
        r := ValidateList(token, OrderedListRoman);
      case OrderedListArabic =>
        r := ValidateList(token, OrderedListArabic);
      case OrderedListLetter =>
        r := ValidateList(token, OrderedListLetter);
      case UnorderedList =>
        r := ValidateList(token, UnorderedList);
        if r.Ok? {
          var next := SkipToken(r.value);
          r := Ok(next);
        }
      case Newline | NoType | Metadata =>
        var next := SkipToken(token);
        r := Ok(next);
    }
  }

  /** `validate(tokens, out_mem_req)`: validates the token array in place. It succeeds
      exactly on a well-formed stream, reports the counts up to the first `eof`, and
      rewrites the breaks. */
  method ValidateTokens(tokens: array<LineToken>) returns (r: Result<MemReq, ValidateError>)
    requires EndsWithEof(tokens[..])
    modifies tokens
    ensures r.Ok? <==> WellFormed(old(tokens[..]))
    ensures r.Ok? ==> r.value == Tally(old(tokens[..]), FirstEof(old(tokens[..])))
    ensures r.Ok? ==> tokens[..] == Rewrite(old(tokens[..]))
  {
    var v := new Validator(tokens);
    r := v.Run();
  }
}
