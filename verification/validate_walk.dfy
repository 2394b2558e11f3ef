/** The validator's walk, one step at a time, over the token sequence: what each handler of
    `validate.c` may conclude from the tokens it reads. Each step either keeps the walk on a
    well-formed prefix, with the counts and the rewrite moved on, or shows the whole stream
    malformed. */
module ValidateWalk {
  import opened Tokens
  import opened ValidateSpec

  // ---- Before the first printable line ----

  /** Only blank lines have been passed before the token at c. */
  predicate Leading(ts: seq<LineToken>, c: nat)
  {
    EndsWithEof(ts) && c <= NewlineEnd(ts, 0) && NewlineEnd(ts, c) == NewlineEnd(ts, 0)
    && (c >= 1 ==> ts[c - 1].kind == Newline) && (c >= 2 ==> ts[c - 2].kind == Newline)
    && CheckedUpTo(ts, c) && Tally(ts, c) == MemReq(0, 0, 0) && RewrittenUpTo(ts, c) == ts
  }

  lemma LeadingStart(ts: seq<LineToken>)
    requires EndsWithEof(ts)
    ensures Leading(ts, 0)
  {
    assert RewrittenUpTo(ts, 0) == ts;
  }

  lemma LeadingStep(ts: seq<LineToken>, c: nat)
    requires Leading(ts, c) && ts[c].kind == Newline
    ensures c + 1 < |ts| && Leading(ts, c + 1)
  {
    NewlineEndBeforeEof(ts, 0);
    RewriteSkip(ts, c);
    CheckedStep(ts, c);
  }

  /** The first printable line: the walk starts there when it is a level-one heading. */
  lemma LeadingEnd(ts: seq<LineToken>, c: nat)
    requires Leading(ts, c) && ts[c].kind != Newline
    ensures ts[c].kind == Heading1 ==> Reached(ts, c)
    ensures ts[c].kind != Heading1 ==> !WellFormed(ts)
  {
    NewlineEndBeforeEof(ts, 0);
    WellFormedChecked(ts);
  }

  // ---- The default branch, the one-line handlers and the end ----

  /** A blank line, or a kind the dispatch does not name, is passed over. */
  lemma PassOver(ts: seq<LineToken>, t: nat)
    requires Reached(ts, t) && (ts[t].kind == Newline || ts[t].kind == NoType || ts[t].kind == Metadata)
    ensures t + 1 < |ts| && Reached(ts, t + 1)
    ensures Tally(ts, t + 1) == Tally(ts, t) && RewrittenUpTo(ts, t + 1) == RewrittenUpTo(ts, t)
  {
    CheckedStep(ts, t);
    RewriteSkip(ts, t);
  }

  /** A heading, a reference or a preformatted block must be followed by a blank line. */
  lemma ClosedLine(ts: seq<LineToken>, t: nat)
    requires Reached(ts, t) && (IsHeading(ts[t].kind) || ts[t].kind == Reference || ts[t].kind == Preformatted)
    ensures t + 1 < |ts|
    ensures ts[t + 1].kind == Newline ==>
      Reached(ts, t + 1) && RewrittenUpTo(ts, t + 1) == RewrittenUpTo(ts, t)
      && Tally(ts, t + 1) == MemReq(Tally(ts, t).chapters + (if ts[t].kind == Heading1 then 1 else 0),
                                    Tally(ts, t).elements + (if ts[t].kind == Reference then 0 else 1),
                                    Tally(ts, t).references + (if ts[t].kind == Reference then 1 else 0))
    ensures ts[t + 1].kind != Newline ==> !WellFormed(ts)
  {
    if ts[t + 1].kind == Newline {
      CheckedStep(ts, t);
      RewriteSkip(ts, t);
    } else {
      Rejected(ts, t);
    }
  }

  /** A blank indented line or a citation cannot open a block quote. */
  lemma QuoteOpensBadly(ts: seq<LineToken>, t: nat)
    requires Reached(ts, t) && (ts[t].kind == BlockNewline || ts[t].kind == BlockCitation)
    ensures !WellFormed(ts)
  {
    Rejected(ts, t);
  }

  /** The walk ends at the first `eof`, on a well-formed stream. */
  lemma EndOfStream(ts: seq<LineToken>, t: nat)
    requires Reached(ts, t) && ts[t].kind == Eof
    ensures t == FirstEof(ts) && WellFormed(ts)
  {
    EofIsFirst(ts, t);
    WellFormedChecked(ts);
  }

  // ---- Runs of paragraph lines and of list items ----

  /** Inside a run of lines of one kind: the line before c has that kind. */
  predicate InRun(ts: seq<LineToken>, c: nat, kind: LineTokenType)
  {
    EndsWithEof(ts) && 1 <= c <= FirstEof(ts) && Opening(ts) && ts[c - 1].kind == kind
    && CheckedUpTo(ts, c - 1)
  }

  /** A paragraph counts three elements, a list three. */
  lemma RunStart(ts: seq<LineToken>, t: nat)
    requires Reached(ts, t) && (ts[t].kind == Paragraph || IsList(ts[t].kind))
    ensures InRun(ts, t + 1, ts[t].kind) && RewrittenUpTo(ts, t + 1) == RewrittenUpTo(ts, t)
    ensures Tally(ts, t + 1) == Tally(ts, t).(elements := Tally(ts, t).elements + 3)
  {
    RewriteSkip(ts, t);
  }

  /** A further paragraph line counts two elements, a further list item one. */
  lemma RunMore(ts: seq<LineToken>, c: nat, kind: LineTokenType)
    requires InRun(ts, c, kind) && (kind == Paragraph || IsList(kind)) && ts[c].kind == kind
    ensures InRun(ts, c + 1, kind) && RewrittenUpTo(ts, c + 1) == RewrittenUpTo(ts, c)
    ensures Tally(ts, c + 1) == Tally(ts, c).(elements := Tally(ts, c).elements + if kind == Paragraph then 2 else 1)
  {
    CheckedStep(ts, c - 1);
    RewriteSkip(ts, c);
  }

  /** A run must end with a blank line. */
  lemma RunBroken(ts: seq<LineToken>, c: nat, kind: LineTokenType)
    requires InRun(ts, c, kind) && (kind == Paragraph || IsList(kind))
    requires ts[c].kind != kind && ts[c].kind != Newline
    ensures !WellFormed(ts)
  {
    Rejected(ts, c - 1);
  }

  /** A list ends at its blank line, which is dispatched next. */
  lemma ListEnd(ts: seq<LineToken>, c: nat, kind: LineTokenType)
    requires InRun(ts, c, kind) && IsList(kind) && ts[c].kind == Newline
    ensures Reached(ts, c)
  {
    CheckedStep(ts, c - 1);
  }

  /** A paragraph's blank line is passed; when another blank line follows, the run of
      blank lines that may hold a break begins. */
  lemma ParagraphEnd(ts: seq<LineToken>, c: nat)
    requires InRun(ts, c, Paragraph) && ts[c].kind == Newline
    ensures c + 1 < |ts| && RewrittenUpTo(ts, c + 1) == RewrittenUpTo(ts, c) && Tally(ts, c + 1) == Tally(ts, c)
    ensures ts[c + 1].kind != Newline ==> Reached(ts, c + 1)
    ensures ts[c + 1].kind == Newline ==> Blanks(ts, c + 1, c + 1)
  {
    CheckedStep(ts, c - 1);
    CheckedStep(ts, c);
    RewriteSkip(ts, c);
  }

  /** In the blank lines after a paragraph's first one, which starts at brk: the token at
      d is next to be read or dispatched. */
  predicate Blanks(ts: seq<LineToken>, brk: nat, d: nat)
  {
    EndsWithEof(ts) && 2 <= brk <= d <= FirstEof(ts) && Opening(ts)
    && ts[brk - 2].kind == Paragraph && ts[brk - 1].kind == Newline && ts[brk].kind == Newline
    && NewlineEnd(ts, brk) == NewlineEnd(ts, d) && ts[d - 1].kind == Newline
    && CheckedUpTo(ts, d)
  }

  lemma BlanksStep(ts: seq<LineToken>, brk: nat, d: nat)
    requires Blanks(ts, brk, d) && ts[d].kind == Newline
    ensures Blanks(ts, brk, d + 1) && Tally(ts, d + 1) == Tally(ts, d)
  {
    CheckedStep(ts, d);
  }

  /** The blank lines end: the first of them is a break exactly when a paragraph follows,
      and the rest of them are left as they are. */
  lemma BlanksEnd(ts: seq<LineToken>, brk: nat, d: nat)
    requires Blanks(ts, brk, d) && ts[d].kind != Newline
    ensures Reached(ts, d) && brk < d
    ensures ts[d].kind == Paragraph ==>
      RewrittenUpTo(ts, d) == RewrittenUpTo(ts, brk)[brk := ts[brk].(kind := ParagraphBreak)]
    ensures ts[d].kind != Paragraph ==> RewrittenUpTo(ts, d) == RewrittenUpTo(ts, brk)
  {
    assert d == NewlineEnd(ts, brk);
    if ts[d].kind == Paragraph {
      RewriteBreak(ts, brk);
    } else {
      RewriteSkip(ts, brk);
    }
    RewriteRunAfterBreak(ts, brk, d);
  }

  // ---- Block quotes ----

  /** Inside a block quote whose first indented paragraph is at t: the line before c is a
      quote line, and, after the first one, followed properly. */
  predicate InQuoteAt(ts: seq<LineToken>, t: nat, c: nat)
  {
    EndsWithEof(ts) && t < c <= FirstEof(ts) && Opening(ts) && ts[t].kind == BlockParagraph
    && (t >= 1 ==> !InQuote(ts[t - 1].kind))
    && CheckedUpTo(ts, c - 1)
    && (ts[c - 1].kind == BlockParagraph || ts[c - 1].kind == BlockNewline || ts[c - 1].kind == BlockCitation)
    && (c > t + 1 ==> Follows(ts, c - 1))
  }

  /** A block quote counts five elements. */
  lemma QuoteStart(ts: seq<LineToken>, t: nat)
    requires Reached(ts, t) && ts[t].kind == BlockParagraph
    ensures InQuoteAt(ts, t, t + 1) && RewrittenUpTo(ts, t + 1) == RewrittenUpTo(ts, t)
    ensures Tally(ts, t + 1) == Tally(ts, t).(elements := Tally(ts, t).elements + 5)
  {
    RewriteSkip(ts, t);
  }

  /** A quote line just read is a proper successor of the line before it. */
  lemma QuoteLineFollows(ts: seq<LineToken>, t: nat, c: nat)
    requires InQuoteAt(ts, t, c)
    requires ts[c].kind == BlockParagraph || ts[c].kind == BlockNewline || ts[c].kind == BlockCitation
    ensures CheckedUpTo(ts, c) && c < FirstEof(ts)
    ensures ts[c].kind == BlockNewline ==> ts[c - 1].kind == BlockParagraph
    ensures ts[c].kind == BlockParagraph ==> InQuote(ts[c - 1].kind)
    ensures ts[c].kind == BlockCitation ==>
      (ts[c - 1].kind == BlockNewline || (ts[c - 1].kind == BlockParagraph && !InQuote(PrevKind(ts, c - 1))))
  {
    CheckedStep(ts, c - 1);
  }

  /** The three quote lines: a blank indented line counts one element and must be
      followed by an indented paragraph or citation; a further indented paragraph counts
      two and must be followed by an indented line or a blank line; a citation counts none
      and must be followed by a blank line. */
  lemma QuoteStep(ts: seq<LineToken>, t: nat, c: nat)
    requires InQuoteAt(ts, t, c)
    requires ts[c].kind == BlockParagraph || ts[c].kind == BlockNewline || ts[c].kind == BlockCitation
    ensures c + 1 < |ts| && RewrittenUpTo(ts, c + 1) == RewrittenUpTo(ts, c)
    ensures Tally(ts, c + 1) == Tally(ts, c).(elements := Tally(ts, c).elements + QuoteWeight(ts[c].kind))
    ensures QuoteNext(ts[c].kind, ts[c + 1].kind) ==> InQuoteAt(ts, t, c + 1)
    ensures !QuoteNext(ts[c].kind, ts[c + 1].kind) ==> !WellFormed(ts)
  {
    QuoteLineFollows(ts, t, c);
    RewriteSkip(ts, c);
    if !QuoteNext(ts[c].kind, ts[c + 1].kind) {
      Rejected(ts, c);
    }
  }

  /** The elements a quote line after the first adds. */
  function QuoteWeight(a: LineTokenType): nat
  {
    if a == BlockNewline then 1 else if a == BlockParagraph then 2 else 0
  }

  /** What each quote line's handler accepts after it. */
  predicate QuoteNext(a: LineTokenType, b: LineTokenType)
  {
    if a == BlockNewline then b == BlockParagraph || b == BlockCitation
    else if a == BlockParagraph then b == BlockParagraph || b == BlockNewline || b == Newline
    else b == Newline
  }

  /** The blank unindented line ends the quote and is dispatched next. */
  lemma QuoteClosed(ts: seq<LineToken>, t: nat, c: nat)
    requires InQuoteAt(ts, t, c) && ts[c].kind == Newline
    ensures Reached(ts, c)
  {
    CheckedStep(ts, c - 1);
  }

  /** Any other line after the first indented paragraph makes the stream malformed. */
  lemma QuoteBroken(ts: seq<LineToken>, t: nat, c: nat)
    requires InQuoteAt(ts, t, c)
    requires ts[c].kind != BlockParagraph && ts[c].kind != BlockNewline && ts[c].kind != BlockCitation
    requires ts[c].kind != Newline
    ensures !WellFormed(ts)
  {
    Rejected(ts, c - 1);
  }

  // ---- Paragraph breaks ----

  /** After the paragraph break at t: blank lines up to the token at c. */
  predicate AfterBreak(ts: seq<LineToken>, t: nat, c: nat)
  {
    Reached(ts, t) && ts[t].kind == ParagraphBreak && t < c <= FirstEof(ts)
    && NewlineEnd(ts, t + 1) == NewlineEnd(ts, c)
    && (c > t + 1 ==> ts[c - 1].kind == Newline) && (c > t + 2 ==> ts[c - 2].kind == Newline)
  }

  lemma BreakStart(ts: seq<LineToken>, t: nat)
    requires Reached(ts, t) && ts[t].kind == ParagraphBreak
    ensures AfterBreak(ts, t, t + 1)
    ensures Tally(ts, t + 1) == Tally(ts, t) && RewrittenUpTo(ts, t + 1) == RewrittenUpTo(ts, t)
  {
    RewriteSkip(ts, t);
  }

  lemma BreakStep(ts: seq<LineToken>, t: nat, c: nat)
    requires AfterBreak(ts, t, c) && ts[c].kind == Newline
    ensures AfterBreak(ts, t, c + 1)
    ensures Tally(ts, c + 1) == Tally(ts, c) && RewrittenUpTo(ts, c + 1) == RewrittenUpTo(ts, c)
  {
    RewriteSkip(ts, c);
  }

  /** A paragraph break must be followed, after blank lines, by a paragraph. */
  lemma BreakEnd(ts: seq<LineToken>, t: nat, c: nat)
    requires AfterBreak(ts, t, c) && ts[c].kind != Newline
    ensures ts[c].kind == Paragraph ==> Reached(ts, c)
    ensures ts[c].kind != Paragraph ==> !WellFormed(ts)
  {
    if ts[c].kind == Paragraph {
      CheckedStep(ts, t);
      CheckedBlanks(ts, t + 1, c);
    } else {
      Rejected(ts, t);
    }
  }
}
