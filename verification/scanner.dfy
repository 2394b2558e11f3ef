/** The byte scanner of the tokeniser, as functions of the input buffer: one call of
    `get_char` (UTF-8 aware column counting, CR LF collapsing, control-byte rejection)
    and one call of `get_filtered_char` (which also strips comments). */
module Scanner {
  import opened Wrappers
  import opened Tokens

  /** A 1-based line and column. */
  datatype Position = Position(line: nat, column: nat)

  /** The outcome of one scanner call: the character returned, the read offset after it,
      the position reported for it, and the position of the character after it. */
  datatype Scanned = Scanned(c: byte, next: nat, at: Position, after: Position)

  datatype ScanError =
    | ControlCharacter(at: Position)
    | UnterminatedComment(at: Position)

  /** The buffer is NUL-terminated. */
  predicate Terminated(s: seq<byte>) { |s| > 0 && s[|s| - 1] == Nul }

  predicate IsContinuation(b: byte) { 0x80 <= b < 0xC0 }

  predicate IsLead(b: byte) { 0xC0 <= b }

  /** The only characters the scanner ever returns: the terminator, tab, line feed and
      text bytes (printable ASCII and UTF-8 bytes). */
  predicate Returnable(c: byte) { c == Nul || c == Tab || c == LineFeed || IsTextByte(c) }

  /** One call of `get_char` at offset i, when the next character's position is p. */
  function ScanChar(s: seq<byte>, i: nat, p: Position): (r: Result<Scanned, ScanError>)
    requires Terminated(s) && i < |s|
    ensures r.Ok? ==> r.value.at == p && i < r.value.next <= |s| && Returnable(r.value.c)
    ensures r.Ok? ==> r.value.c == s[r.value.next - 1]
    ensures r.Ok? && r.value.c != Nul ==> r.value.next < |s|
    ensures r.Err? ==> r.error == ControlCharacter(p)
  {
    var b := s[i];
    if b >= 0x80 then
      // Only a lead byte starts a new column; continuation bytes stay in it.
      Ok(Scanned(b, i + 1, p, if IsLead(b) then p.(column := p.column + 1) else p))
    else if b == Nul then
      Ok(Scanned(Nul, i + 1, p, p))
    else if b == Tab then
      Ok(Scanned(Tab, i + 1, p, p))
    else if b == CarriageReturn then
      if s[i + 1] == LineFeed then Ok(Scanned(LineFeed, i + 2, p, Position(p.line + 1, 1)))
      else Err(ControlCharacter(p))
    else if b == LineFeed then
      Ok(Scanned(LineFeed, i + 1, p, Position(p.line + 1, 1)))
    else if b < Space || b == Delete then
      Err(ControlCharacter(p))
    else
      Ok(Scanned(b, i + 1, p, p.(column := p.column + 1)))
  }

  /** Column and line bookkeeping of the scanner. */
  lemma ScanCharPositions(s: seq<byte>, i: nat, p: Position)
    requires Terminated(s) && i < |s|
    ensures IsContinuation(s[i]) ==> ScanChar(s, i, p) == Ok(Scanned(s[i], i + 1, p, p))
    ensures IsLead(s[i]) || (Space <= s[i] < Delete)
      ==> ScanChar(s, i, p) == Ok(Scanned(s[i], i + 1, p, Position(p.line, p.column + 1)))
    ensures s[i] == LineFeed ==> ScanChar(s, i, p) == Ok(Scanned(LineFeed, i + 1, p, Position(p.line + 1, 1)))
    ensures s[i] == CarriageReturn && s[i + 1] == LineFeed
      ==> ScanChar(s, i, p) == Ok(Scanned(LineFeed, i + 2, p, Position(p.line + 1, 1)))
  {
  }

  /** A CR LF pair scans exactly like the LF alone: same character, same next offset,
      same positions. */
  lemma CrLfCollapses(s: seq<byte>, i: nat, p: Position)
    requires Terminated(s) && i + 1 < |s|
    requires s[i] == CarriageReturn && s[i + 1] == LineFeed
    ensures ScanChar(s, i, p) == ScanChar(s, i + 1, p)
  {
  }

  /** The bytes the scanner rejects, and the terminator it returns as such. */
  lemma ScanCharRejects(s: seq<byte>, i: nat, p: Position)
    requires Terminated(s) && i < |s|
    ensures ScanChar(s, i, p).Err?
      <==> (s[i] == Delete
            || (s[i] == CarriageReturn && s[i + 1] != LineFeed)
            || (s[i] < Space && s[i] !in {Nul, Tab, LineFeed, CarriageReturn}))
    ensures s[i] == Nul ==> ScanChar(s, i, p) == Ok(Scanned(Nul, i + 1, p, p))
  {
  }

  /** The position of a comment's closing `*` followed by `/`. */
  predicate IsClose(s: seq<byte>, j: nat) { j + 1 < |s| && s[j] == Asterisk && s[j + 1] == Slash }

  /** One call of `get_filtered_char` at offset i. */
  function FilterChar(s: seq<byte>, i: nat, p: Position): (r: Result<Scanned, ScanError>)
    requires Terminated(s) && i < |s|
    ensures r.Ok? ==> i < r.value.next <= |s| && Returnable(r.value.c)
    ensures r.Ok? ==> r.value.c == s[r.value.next - 1]
    ensures r.Ok? && r.value.c != Nul ==> r.value.next < |s|
  {
    var first :- ScanChar(s, i, p);
    if first.c == Slash && s[first.next] == Asterisk then
      var star :- ScanChar(s, first.next, first.after);
      SkipComment(s, star)
    else
      Ok(first)
  }

  /** The comment loop of `get_filtered_char`, from the character just scanned. */
  function SkipComment(s: seq<byte>, cur: Scanned): (r: Result<Scanned, ScanError>)
    requires Terminated(s) && 0 < cur.next <= |s| && (cur.c != Nul ==> cur.next < |s|)
    ensures r.Ok? ==> cur.next < r.value.next <= |s| && Returnable(r.value.c)
    ensures r.Ok? ==> r.value.c == s[r.value.next - 1]
    ensures r.Ok? && r.value.c != Nul ==> r.value.next < |s|
    decreases |s| - cur.next
  {
    if cur.c == Nul then
      Err(UnterminatedComment(cur.at))
    else if cur.c == Asterisk && s[cur.next] == Slash then
      var slash :- ScanChar(s, cur.next, cur.after);
      ScanChar(s, slash.next, slash.after)
    else
      var n :- ScanChar(s, cur.next, cur.after);
      SkipComment(s, n)
  }

  /** What the comment loop skips: everything up to the first closing star-slash at or after `from`,
      with no terminator on the way; the character it returns is the one scanned right
      after that `/`. */
  lemma {:induction false} SkipCommentExtent(s: seq<byte>, cur: Scanned, from: nat) returns (k: nat, q: Position)
    requires Terminated(s) && 0 < cur.next <= |s| && (cur.c != Nul ==> cur.next < |s|)
    requires cur.c == s[cur.next - 1] && from <= cur.next - 1
    requires forall j :: from <= j < cur.next - 1 ==> !IsClose(s, j) && s[j] != Nul
    requires SkipComment(s, cur).Ok?
    ensures cur.next - 1 <= k && IsClose(s, k) && k + 2 < |s|
    ensures forall j :: from <= j < k ==> !IsClose(s, j)
    ensures forall j :: from <= j < k + 2 ==> s[j] != Nul
    ensures ScanChar(s, k + 2, q) == SkipComment(s, cur)
    decreases |s| - cur.next
  {
    if cur.c == Asterisk && s[cur.next] == Slash {
      k := cur.next - 1;
      var slash := ScanChar(s, cur.next, cur.after).value;
      q := slash.after;
    } else {
      var n := ScanChar(s, cur.next, cur.after).value;
      assert !IsClose(s, cur.next - 1);
      // A CR LF pair covers two offsets, neither of which can start a star-slash.
      assert n.next == cur.next + 1 || (n.next == cur.next + 2 && s[cur.next] == CarriageReturn);
      k, q := SkipCommentExtent(s, n, from);
    }
  }

  /** `get_filtered_char` removes a comment from its opening slash-star through the first
      star-slash that follows (the opening `*` may serve as the closing one) and returns the character
      after it; the comment holds no terminator. */
  lemma FilterStripsComment(s: seq<byte>, i: nat, p: Position) returns (k: nat, q: Position)
    requires Terminated(s) && i < |s|
    requires s[i] == Slash && s[i + 1] == Asterisk
    requires FilterChar(s, i, p).Ok?
    ensures i + 1 <= k && IsClose(s, k) && k + 2 < |s|
    ensures forall j :: i + 1 <= j < k ==> !IsClose(s, j)
    ensures forall j :: i <= j < k + 2 ==> s[j] != Nul
    ensures FilterChar(s, i, p) == ScanChar(s, k + 2, q)
  {
    var first := ScanChar(s, i, p).value;
    var star := ScanChar(s, first.next, first.after).value;
    k, q := SkipCommentExtent(s, star, i + 1);
  }

  /** A comment that reaches the terminator is an error: the scan fails with
      UnterminatedComment only when a terminator follows the slash-star with no star-slash before it. */
  lemma {:induction false} SkipCommentUnterminated(s: seq<byte>, cur: Scanned, from: nat) returns (z: nat)
    requires Terminated(s) && 0 < cur.next <= |s| && (cur.c != Nul ==> cur.next < |s|)
    requires cur.c == s[cur.next - 1] && from <= cur.next - 1
    requires forall j :: from <= j < cur.next - 1 ==> !IsClose(s, j)
    requires SkipComment(s, cur).Err? && SkipComment(s, cur).error.UnterminatedComment?
    ensures from <= z < |s| && s[z] == Nul
    ensures forall j :: from <= j < z ==> !IsClose(s, j)
    decreases |s| - cur.next
  {
    if cur.c == Nul {
      z := cur.next - 1;
    } else if cur.c == Asterisk && s[cur.next] == Slash {
      // Both scans here can only fail with ControlCharacter.
      assert false;
    } else {
      var n := ScanChar(s, cur.next, cur.after).value;
      assert !IsClose(s, cur.next - 1);
      assert n.next == cur.next + 1 || (n.next == cur.next + 2 && s[cur.next] == CarriageReturn);
      z := SkipCommentUnterminated(s, n, from);
    }
  }

  /** Slash, star, slash is a complete comment: the opening `*` doubles as the closing one. */
  lemma SlashStarSlashIsComment()
    ensures FilterChar([Slash, Asterisk, Slash, 0x61, Nul], 0, Position(1, 1)).Ok?
    ensures FilterChar([Slash, Asterisk, Slash, 0x61, Nul], 0, Position(1, 1)).value.c == 0x61
  {
  }

  /** The character returned after a comment is not itself checked for a new slash-star:
      after the comment slash-star-star-slash, the slash that opens the next comment is returned as text. */
  lemma CommentAfterCommentNotStripped()
    ensures FilterChar([Slash, Asterisk, Asterisk, Slash, Slash, Asterisk, 0x78, Asterisk, Slash, Nul], 0, Position(1, 1))
      == Ok(Scanned(Slash, 5, Position(1, 5), Position(1, 6)))
  {
    var s: seq<byte> := [Slash, Asterisk, Asterisk, Slash, Slash, Asterisk, 0x78, Asterisk, Slash, Nul];
    var third := Scanned(Asterisk, 3, Position(1, 3), Position(1, 4));
    assert SkipComment(s, third) == Ok(Scanned(Slash, 5, Position(1, 5), Position(1, 6)));
    assert SkipComment(s, Scanned(Asterisk, 2, Position(1, 2), Position(1, 3))) == SkipComment(s, third);
  }
}
