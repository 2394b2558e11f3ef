/** What the validator accepts, stated over the token sequence it is given: the document
    shape, the counts it reports and the one rewrite it makes. */
module ValidateSpec {
  import opened Tokens

  /** The tokeniser's streams end with an `eof` token. */
  predicate EndsWithEof(ts: seq<LineToken>) { |ts| > 0 && ts[|ts| - 1].kind == Eof }

  /** The first `eof` at or after i: the validator's walk stops there. */
  function FirstEofFrom(ts: seq<LineToken>, i: nat): (e: nat)
    requires EndsWithEof(ts) && i < |ts|
    ensures i <= e < |ts| && ts[e].kind == Eof
    decreases |ts| - i
  {
    if ts[i].kind == Eof then i else FirstEofFrom(ts, i + 1)
  }

  function FirstEof(ts: seq<LineToken>): (e: nat)
    requires EndsWithEof(ts)
    ensures e < |ts| && ts[e].kind == Eof
  {
    FirstEofFrom(ts, 0)
  }

  /** No `eof` comes before the first one. */
  lemma {:induction false} FirstEofFromIsFirst(ts: seq<LineToken>, i: nat, j: nat)
    requires EndsWithEof(ts) && i < |ts| && i <= j < FirstEofFrom(ts, i)
    ensures ts[j].kind != Eof
    decreases j - i
  {
    if i < j {
      FirstEofFromIsFirst(ts, i + 1, j);
    }
  }

  lemma FirstEofIsFirst(ts: seq<LineToken>, j: nat)
    requires EndsWithEof(ts) && j < FirstEof(ts)
    ensures ts[j].kind != Eof
  {
    FirstEofFromIsFirst(ts, 0, j);
  }

  /** An `eof` no later than the first one is the first one. */
  lemma EofIsFirst(ts: seq<LineToken>, j: nat)
    requires EndsWithEof(ts) && j <= FirstEof(ts)
    ensures ts[j].kind == Eof ==> j == FirstEof(ts)
  {
    if j < FirstEof(ts) {
      FirstEofIsFirst(ts, j);
    }
  }

  /** The first token at or after i that is not a `newline`. */
  function NewlineEnd(ts: seq<LineToken>, i: nat): (e: nat)
    requires EndsWithEof(ts) && i < |ts|
    ensures i <= e < |ts| && ts[e].kind != Newline
    decreases |ts| - i
  {
    if ts[i].kind == Newline then NewlineEnd(ts, i + 1) else i
  }

  /** Every token from i up to NewlineEnd is a `newline`. */
  lemma {:induction false} NewlineRun(ts: seq<LineToken>, i: nat, j: nat)
    requires EndsWithEof(ts) && i < |ts| && i <= j < NewlineEnd(ts, i)
    ensures ts[j].kind == Newline
    decreases j - i
  {
    if i < j {
      NewlineRun(ts, i + 1, j);
    }
  }

  /** NewlineEnd never passes an `eof`. */
  lemma {:induction false} NewlineEndBeforeEof(ts: seq<LineToken>, i: nat)
    requires EndsWithEof(ts) && i <= FirstEof(ts)
    ensures NewlineEnd(ts, i) <= FirstEof(ts)
    decreases FirstEof(ts) - i
  {
    if i < FirstEof(ts) && ts[i].kind == Newline {
      NewlineEndBeforeEof(ts, i + 1);
    }
  }

  /** The kind of the token before k; the start of the stream counts as a blank line. */
  function PrevKind(ts: seq<LineToken>, k: nat): LineTokenType
    requires k < |ts|
  {
    if k == 0 then Newline else ts[k - 1].kind
  }

  predicate IsList(t: LineTokenType)
  {
    t.OrderedListRoman? || t.OrderedListArabic? || t.OrderedListLetter? || t.UnorderedList?
  }

  /** Inside a block quote: after its first indented paragraph. */
  predicate InQuote(t: LineTokenType) { t == BlockParagraph || t == BlockNewline }

  /** What may follow the token at k (and, for block-quote lines, precede it). A block
      quote's first indented paragraph may be followed by a citation; a later one may not. */
  predicate Follows(ts: seq<LineToken>, k: nat)
    requires EndsWithEof(ts) && k + 1 < |ts|
  {
    var a, b, p := ts[k].kind, ts[k + 1].kind, PrevKind(ts, k);
    match a
    case Paragraph => b == Paragraph || b == Newline
    case Heading1 => b == Newline
    case Heading2 => b == Newline
    case Heading3 => b == Newline
    case Reference => b == Newline
    case Preformatted => b == Newline
    case OrderedListRoman => b == a || b == Newline
    case OrderedListArabic => b == a || b == Newline
    case OrderedListLetter => b == a || b == Newline
    case UnorderedList => b == a || b == Newline
    case BlockNewline => p == BlockParagraph && (b == BlockParagraph || b == BlockCitation)
    case BlockParagraph =>
      (b == BlockParagraph || b == BlockNewline || b == Newline)
      || (b == BlockCitation && !InQuote(p))
    case BlockCitation =>
      (p == BlockNewline || (p == BlockParagraph && !InQuote(PrevKind(ts, k - 1)))) && b == Newline
    case ParagraphBreak => ts[NewlineEnd(ts, k + 1)].kind == Paragraph
    case _ => true
  }

  /** The first line that is not blank is a level-one heading. */
  predicate Opening(ts: seq<LineToken>)
    requires EndsWithEof(ts)
  {
    ts[NewlineEnd(ts, 0)].kind == Heading1
  }

  /** The document shape the validator accepts, up to the first `eof`. */
  predicate WellFormed(ts: seq<LineToken>)
    requires EndsWithEof(ts)
  {
    Opening(ts) && forall k :: 0 <= k < FirstEof(ts) ==> Follows(ts, k)
  }

  /** The first n tokens are each followed as the document shape demands, checked one
      token at a time as the walk does. */
  predicate CheckedUpTo(ts: seq<LineToken>, n: nat)
    requires EndsWithEof(ts)
  {
    n <= FirstEof(ts) && (n == 0 || (CheckedUpTo(ts, n - 1) && Follows(ts, n - 1)))
  }

  /** Checking token by token is checking every token. */
  lemma {:induction false} CheckedUpToAll(ts: seq<LineToken>, n: nat)
    requires EndsWithEof(ts)
    ensures CheckedUpTo(ts, n) <==> n <= FirstEof(ts) && forall k :: 0 <= k < n ==> Follows(ts, k)
  {
    if n > 0 {
      CheckedUpToAll(ts, n - 1);
    }
  }

  lemma CheckedStep(ts: seq<LineToken>, n: nat)
    requires EndsWithEof(ts) && CheckedUpTo(ts, n) && n < FirstEof(ts) && Follows(ts, n)
    ensures CheckedUpTo(ts, n + 1)
  {
  }

  /** Blank lines are always followed properly. */
  lemma {:induction false} CheckedBlanks(ts: seq<LineToken>, i: nat, c: nat)
    requires EndsWithEof(ts) && i < |ts| && CheckedUpTo(ts, i)
    requires i <= c <= NewlineEnd(ts, i) && c <= FirstEof(ts)
    ensures CheckedUpTo(ts, c)
    decreases c - i
  {
    if i < c {
      CheckedBlanks(ts, i + 1, c);
    }
  }

  /** One token before the first `eof` followed wrongly makes the stream malformed. */
  lemma Rejected(ts: seq<LineToken>, k: nat)
    requires EndsWithEof(ts) && k < FirstEof(ts) && !Follows(ts, k)
    ensures !WellFormed(ts)
  {
  }

  /** A well-formed stream is the one the walk checks through to its first `eof`. */
  lemma WellFormedChecked(ts: seq<LineToken>)
    requires EndsWithEof(ts)
    ensures WellFormed(ts) <==> Opening(ts) && CheckedUpTo(ts, FirstEof(ts))
  {
    CheckedUpToAll(ts, FirstEof(ts));
  }

  /** How the walk arrives at the token at t: never straight from a paragraph, never from
      inside a block quote or a list to a line that is not blank, and never into the blank
      lines after a paragraph's first one. */
  predicate Arrival(ts: seq<LineToken>, t: nat)
    requires t < |ts|
  {
    (t >= 1 ==> ts[t - 1].kind != Paragraph)
    && (t >= 1 && ts[t].kind != Newline ==> !InQuote(ts[t - 1].kind) && !IsList(ts[t - 1].kind))
    && (t >= 2 && ts[t].kind == Newline && ts[t - 1].kind == Newline ==> ts[t - 2].kind != Paragraph)
  }

  /** The walk has reached the token at t, to be dispatched next: the stream opens properly,
      every earlier token is followed as the shape demands, and the arrival is proper. */
  predicate Reached(ts: seq<LineToken>, t: nat)
  {
    EndsWithEof(ts) && t <= FirstEof(ts) && Opening(ts) && CheckedUpTo(ts, t) && Arrival(ts, t)
  }

  /** The elements a token adds to the document: a paragraph 3 and each further line 2, a
      heading or preformatted block 1, a block quote 5, each further indented paragraph 2
      and each indented blank line 1, a list 3 and each further item 1. */
  function Weight(ts: seq<LineToken>, k: nat): (w: nat)
    requires k < |ts|
    ensures w <= 5
  {
    var a, p := ts[k].kind, PrevKind(ts, k);
    match a
    case Paragraph => if p == Paragraph then 2 else 3
    case Heading1 => 1
    case Heading2 => 1
    case Heading3 => 1
    case Preformatted => 1
    case BlockParagraph => if InQuote(p) then 2 else 5
    case BlockNewline => 1
    case _ => if IsList(a) then (if p == a then 1 else 3) else 0
  }

  /** The elements of the first n tokens. */
  function Elements(ts: seq<LineToken>, n: nat): nat
    requires n <= |ts|
  {
    if n == 0 then 0 else Elements(ts, n - 1) + Weight(ts, n - 1)
  }

  /** The number of tokens of kind t among the first n. */
  function CountKind(ts: seq<LineToken>, n: nat, t: LineTokenType): (c: nat)
    requires n <= |ts|
    ensures c <= n
  {
    if n == 0 then 0 else CountKind(ts, n - 1, t) + (if ts[n - 1].kind == t then 1 else 0)
  }

  /** What `validate` reports to the document builder. */
  datatype MemReq = MemReq(chapters: nat, elements: nat, references: nat)

  /** The counts of the first n tokens: level-one headings, elements and references. */
  function Tally(ts: seq<LineToken>, n: nat): MemReq
    requires n <= |ts|
  {
    MemReq(CountKind(ts, n, Heading1), Elements(ts, n), CountKind(ts, n, Reference))
  }

  /** The blank line that becomes a paragraph break: the second of two or more blank lines
      between two paragraphs. */
  predicate IsBreak(ts: seq<LineToken>, r: nat)
    requires EndsWithEof(ts) && r < |ts|
  {
    2 <= r && ts[r - 2].kind == Paragraph && ts[r - 1].kind == Newline && ts[r].kind == Newline
    && ts[NewlineEnd(ts, r)].kind == Paragraph
  }

  function RewriteAt(ts: seq<LineToken>, k: nat): LineToken
    requires EndsWithEof(ts) && k < |ts|
  {
    if IsBreak(ts, k) then ts[k].(kind := ParagraphBreak) else ts[k]
  }

  /** The tokens with the breaks among the first n rewritten. */
  function RewrittenUpTo(ts: seq<LineToken>, n: nat): (out: seq<LineToken>)
    requires EndsWithEof(ts) && n <= |ts|
    ensures |out| == |ts|
  {
    seq(|ts|, k requires 0 <= k < |ts| => if k < n then RewriteAt(ts, k) else ts[k])
  }

  /** The token array after validation: breaks rewritten up to the first `eof`. */
  function Rewrite(ts: seq<LineToken>): (out: seq<LineToken>)
    requires EndsWithEof(ts)
    ensures |out| == |ts|
  {
    RewrittenUpTo(ts, FirstEof(ts))
  }

  /** Passing a token that is not a break leaves the rewritten tokens as they are. */
  lemma RewriteSkip(ts: seq<LineToken>, n: nat)
    requires EndsWithEof(ts) && n < |ts| && !IsBreak(ts, n)
    ensures RewrittenUpTo(ts, n + 1) == RewrittenUpTo(ts, n)
  {
  }

  /** Passing a break rewrites its kind and nothing else. */
  lemma RewriteBreak(ts: seq<LineToken>, n: nat)
    requires EndsWithEof(ts) && n < |ts| && IsBreak(ts, n)
    ensures RewrittenUpTo(ts, n + 1) == RewrittenUpTo(ts, n)[n := ts[n].(kind := ParagraphBreak)]
  {
  }

  /** After a break, the rest of its run of blank lines is left as it is. */
  lemma RewriteRunAfterBreak(ts: seq<LineToken>, brk: nat, q: nat)
    requires EndsWithEof(ts) && 2 <= brk < q < |ts|
    requires ts[brk - 2].kind == Paragraph && ts[brk - 1].kind == Newline
    requires NewlineEnd(ts, brk) == q
    ensures RewrittenUpTo(ts, brk + 1) == RewrittenUpTo(ts, q)
  {
    forall k | brk < k < q
      ensures !IsBreak(ts, k)
    {
      if k > brk + 1 {
        NewlineRun(ts, brk, k - 2);
      }
    }
    forall k | 0 <= k < |ts|
      ensures RewrittenUpTo(ts, brk + 1)[k] == RewrittenUpTo(ts, q)[k]
    {
    }
  }

  /** The rewrite changes only the kind of `newline` tokens, to `paragraph_break`. */
  lemma RewriteChangesOnlyBreaks(ts: seq<LineToken>, k: nat)
    requires EndsWithEof(ts) && k < |ts|
    ensures Rewrite(ts)[k] == ts[k]
      || (ts[k].kind == Newline && Rewrite(ts)[k] == ts[k].(kind := ParagraphBreak))
    ensures Rewrite(ts)[k].line == ts[k].line && Rewrite(ts)[k].text == ts[k].text
      && Rewrite(ts)[k].index == ts[k].index && Rewrite(ts)[k].length == ts[k].length
  {
  }

  /** Only the first of the extra blank lines becomes a break. */
  lemma BreakIsFirstOfRun(ts: seq<LineToken>, r: nat, j: nat)
    requires EndsWithEof(ts) && r < |ts| && IsBreak(ts, r) && r < j < NewlineEnd(ts, r)
    ensures !IsBreak(ts, j)
  {
    if j == r + 1 {
      assert ts[j - 2].kind == Newline;
    } else {
      NewlineRun(ts, r, j - 2);
    }
  }

  /** A run of blank lines between two paragraphs holds a break exactly when it has more
      than one line. */
  lemma BreakBetweenParagraphs(ts: seq<LineToken>, p: nat)
    requires EndsWithEof(ts) && p + 2 < |ts|
    requires ts[p].kind == Paragraph && ts[p + 1].kind == Newline
    requires ts[NewlineEnd(ts, p + 1)].kind == Paragraph
    ensures IsBreak(ts, p + 2) <==> NewlineEnd(ts, p + 1) > p + 2
  {
  }

  /** The counts only grow along the stream. */
  lemma {:induction false} ElementsGrow(ts: seq<LineToken>, m: nat, n: nat)
    requires m <= n <= |ts|
    ensures Elements(ts, m) <= Elements(ts, n)
    decreases n - m
  {
    if m < n {
      ElementsGrow(ts, m, n - 1);
    }
  }

  lemma {:induction false} CountKindGrows(ts: seq<LineToken>, m: nat, n: nat, t: LineTokenType)
    requires m <= n <= |ts|
    ensures CountKind(ts, m, t) <= CountKind(ts, n, t)
    decreases n - m
  {
    if m < n {
      CountKindGrows(ts, m, n - 1, t);
    }
  }
}
