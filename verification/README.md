# press: tokeniser and validator

press turns a plain-text manuscript into a book. This project models the two passes at
its core.

- The **tokeniser** (`src/tokenise.c`) walks a NUL-terminated byte buffer once. It classifies
  each line (heading, paragraph, list item, block quote, reference, metadata or blank). It
  records one line token per line, and it rewrites the line's text in place as it goes:
  - comments are removed;
  - `**`, `*`, `"`, `--`, `---` and inline `[n]` references become one-byte sentinel codes;
  - the line feed becomes a 0 byte.

  The rules on spaces, emphasis, dashes, numbering and control characters are enforced
  with a line and column for each error.
- The **validator** (`src/validate.c`) walks the token array with one cursor. It checks the
  document shape:
  - the first printable line is a level-one heading;
  - every block ends with a blank line;
  - block quotes follow their own rules about blank lines and citations.

  It rewrites the second blank line between two paragraphs into a paragraph break, and it
  counts chapters, elements and references for the document builder.

The model follows the source's own form.

- `Tokenise.Tokeniser` is a class over the byte `array` that it rewrites in place. Its
  fields are the read and write offsets, the scanner's line and column, and the token list.
  Every handler of `tokenise.c` is a method proved against a specification:
  - the scanner functions of `Scanner`;
  - the text model of `Tokens` (units, sentinels, markup nesting);
  - `arabic_to_int` (`Arabic`);
  - the Roman-numeral table (`RomanNumeral`);
  - for `tokenise_text` and the checks it calls, functions of the manuscript (`TextSpec`,
    `LineSpec`, `StepSpec`, `UnitSpec` and the functions for each branch). They give the
    units a line rewrites to, where the scanner ends and which error is raised, and
    lemmas prove what is accepted to be valid, well-nested, legally spaced text.

  The top-level guarantee: every emitted token's text run decodes to valid, well-nested,
  legally spaced text followed by a 0 byte, and the token list ends with `newline`, `eof`.
- `Validate.Validator` is a class over the `array` of line tokens.
  - `ValidateSpec` states the accepted shape as a predicate `WellFormed` over the token
    sequence. It also defines the counts (`Tally`) and the rewrite (`Rewrite`) as functions.
  - `ValidateWalk` proves, handler by handler, how one step of the walk relates to them.
  - The validator succeeds exactly on well-formed streams. It then returns the counts up to
    the first `eof` and leaves the array equal to the rewritten sequence.

Errors (`handle_tokenise_error`, `handle_validate_error`) are `Result` values carrying the
error kind and the line (and, for the tokeniser, the column). They are not messages printed
before exiting.

The trailing-space check does not follow the plain reading "a space just before the line
feed". `check_newline` tests the byte after the line feed, so the model does too: a space
that starts the next line is reported as a trailing space. A space that really ends a line
is accepted.

## Model

| member | source | states |
|---|---|---|
| Tokens.KindOfOrdinal | src/tokenise.h:1-19 | The enumeration values 0..17 each denote exactly one line-token kind, and the value maps back to its kind; no other value denotes one. |
| Tokens.OrdinalInjective | src/tokenise.h:1-19 | Distinct line-token kinds have distinct enumeration values. |
| Tokens.HeadingOfDepth | src/tokenise.c:438 | `heading_1 + depth` for depth 0..2 is a heading kind whose value is `heading_1`'s plus the depth. |
| Tokens.HeadingDepthRoundTrip | src/validate.c:70-72 | The validator's `type - heading_1` inverts the tokeniser's `heading_1 + depth`: each heading kind has level 0..2, and the levels and heading kinds correspond one to one. |
| Tokens.TextTokenOfCode | src/tokenise.h:21-34 | Codes 0..10 each denote exactly one inline sentinel, and that sentinel's code is the byte. |
| Tokens.SentinelCodes | src/tokenise.h:21-34 | The sentinel codes are pairwise distinct. Every code except the terminator lies in 1..10, below a space. Quote begin and end share their codes with tab and line feed. |
| Tokens.DecodeEncode | src/tokenise.h:21-34 | Sentinels are unambiguous in token text: decoding the bytes written for valid units gives the units back. |
| Tokens.EncodeDecode | src/tokenise.h:21-34 | Every string of sentinel codes and printable bytes is the encoding of valid units. |
| RomanNumeral.TableEntries | src/roman_numeral.c:1-30 | The table has 26 entries, and entry i is the canonical numeral of i + 1 followed by ". ". |
| RomanNumeral.TableEntry | src/roman_numeral.c:5-30 | Entry i is the canonical numeral of i + 1 followed by ". ". |
| RomanNumeral.ToRomanInjective | src/roman_numeral.c:5-30 | Distinct values below 40 have distinct numerals. |
| RomanNumeral.ToRomanAlphabet | src/roman_numeral.c:5-30 | Every numeral is non-empty and spelled with I, V and X only, the letters the classifier dispatches on. |
| RomanNumeral.TableDistinct | src/roman_numeral.c:5-30 | The 26 entries are pairwise distinct. |
| RomanNumeral.EntryShape | src/roman_numeral.c:5-30 | Each entry's bytes are a non-empty run of numeral letters followed by a period and a space. |
| RomanNumeral.NumeralBytesInjective | src/roman_numeral.c:5-30 | Distinct values have distinct numeral bytes. |
| RomanNumeral.StrncmpExact | src/tokenise.c:486 | Over strings without an early NUL, `strncmp(a, b, n) == 0` holds exactly when the first n bytes agree. |
| RomanNumeral.LookupRoman | src/tokenise.c:482-493 | The table scan returns the first entry that `strncmp` reports equal over the given length, with its 1-based index; when none matches, no entry is equal. |
| RomanNumeral.MarkerMatchesEntry | src/tokenise.c:482-486 | Comparing a scanned marker (numeral letters, ". ", rest of buffer) with entry i over the marker's length succeeds exactly when the numeral is entry i's. |
| RomanNumeral.NumeralValue | src/tokenise.c:482-493 | The value a numeral spells, if any, lies in 1..26. |
| RomanNumeral.NumeralValueFromSpells | src/roman_numeral.c:5-30 | A value found by the search is one whose numeral is the one searched for. |
| RomanNumeral.NumeralValueFromFinds | src/roman_numeral.c:5-30 | The search from k finds every table numeral of value k or more. |
| RomanNumeral.NumeralValueInverse | src/roman_numeral.c:5-30 | Looking up the numeral of n, for n in 1..26, gives n. |
| RomanNumeral.LookupMeaning | src/tokenise.c:482-495 | The lookup's answer for a scanned marker is exactly the value its numeral spells, or none. |
| RomanNumeral.LookupFound | src/tokenise.c:482-486 | A match with entry n - 1 means the numeral spells n. |
| RomanNumeral.LookupMissed | src/tokenise.c:484-495 | No match with any entry means the numeral is beyond the table. |
| RomanNumeral.LookupIsUnique | src/tokenise.c:482-486 | At most one entry matches a scanned marker. |
| Arabic.ArabicToInt | src/tokenise.c:26-44 | More than ten bytes before the terminator is the overflow error. Otherwise the result is the positional value of the bytes' signed-char digit values, modulo 2^32. |
| Arabic.Accumulate | src/tokenise.c:34-43 | The weighting loop computes the positional value of the digits modulo 2^32. |
| Arabic.HornerStep | src/tokenise.c:38-41 | One step of the loop keeps the partial sum and the multiplier equal, modulo 2^32, to the exact value of the digits done and the next power of ten. |
| Arabic.DigitValue | src/tokenise.c:32 | `*str - '0'` stored in a `uint32_t` lies below 2^32, and it is the digit's value on ASCII digits. |
| Arabic.RunLength | src/tokenise.c:31-32 | The copy loop stops at the first terminator: the bytes before it are not the terminator. |
| Arabic.PositionalIsDecimal | src/tokenise.c:26-44 | On ASCII digits the positional value is the decimal number they spell. |
| Arabic.NineDigitsExact | src/tokenise.c:26-44 | With at most nine ASCII digits nothing wraps: the result is the decimal number, below 10^9. |
| Scanner.ScanChar | src/tokenise.c:98-163 | `get_char` returns the terminator, tab, line feed or a printable byte, at the position it was told. It reads at least one byte and never past the terminator, or it fails with a control-character error at that position. |
| Scanner.ScanCharPositions | src/tokenise.c:102-159 | A UTF-8 continuation byte does not advance the column; a lead byte or a printable byte advances it by one; a line feed or CR LF starts the next line at column 1. |
| Scanner.CrLfCollapses | src/tokenise.c:128-136 | A CR LF pair scans exactly like the line feed alone. |
| Scanner.ScanCharRejects | src/tokenise.c:119-155 | A lone CR, DEL and every control byte other than tab and line feed are rejected; the terminator is returned as 0. |
| Scanner.FilterChar | src/tokenise.c:165-196 | `get_filtered_char` returns a scanner character: it reads at least one byte and never past the terminator. |
| Scanner.SkipComment | src/tokenise.c:175-190 | The comment loop returns a scanner character past the current one. |
| Scanner.SkipCommentExtent | src/tokenise.c:175-190 | The comment loop skips everything up to the first closing star-slash, and returns the character scanned after it. |
| Scanner.FilterStripsComment | src/tokenise.c:165-196 | A slash-star opening is removed through the first closing star-slash, and the result is the character after it. |
| Scanner.SkipCommentUnterminated | src/tokenise.c:177-180 | An unclosed comment fails only when it reaches the terminator with no closing star-slash before it. |
| Scanner.SlashStarSlashIsComment | src/tokenise.c:170-186 | `/*/` is a complete comment: the opening star also closes it. |
| Scanner.CommentAfterCommentNotStripped | src/tokenise.c:181-186 | The character returned after a comment is not checked again, so a second comment right after the first is not removed. |
| Tokenise.TokensValidExtend | src/tokenise.c:198-201 | Writing further bytes after the completed text runs keeps every token's run valid. |
| Tokenise.CloseLine | src/tokenise.c:309-313 | Units followed by a 0 byte at the last token's offset, with length equal to their number, complete the token list. |
| Tokenise.TokenTextDecodes | src/tokenise.c:309-313 | Every text token's `length` bytes at its `text` offset decode to the units the rewriter produced, and a 0 byte follows them. |
| Tokenise.EmphasisStepMarkup | src/tokenise.c:227-275 | The emphasis state machine writes a sentinel exactly when it keeps strong and emphasis markup well nested: `*` and `**` never mix. |
| Tokenise.Advance | src/tokenise.c:165-196 | One `get_filtered_char` moves the cursor forward; the previous character becomes `pc`, and the new one is a scanner character read from the buffer. |
| Tokenise.ArabicValueDecimal | src/tokenise.c:26-44 | On up to nine digits `arabic_to_int` gives their decimal value; it has no value exactly when more than ten bytes precede the terminator. |
| Tokenise.DigitEnd | src/tokenise.c:450-451 | The digit scan stops at the first non-digit, and every byte before it is a digit. |
| Tokenise.RomanEnd | src/tokenise.c:470-476 | The numeral scan stops at the first byte other than I, V, X. |
| Tokenise.RomanRun | src/tokenise.c:470-476 | Every byte before the end of the numeral scan is I, V or X. |
| Tokenise.HashEnd | src/tokenise.c:424-428 | The `#` run stops at the first other byte, and every byte before it is `#`. |
| Tokenise.DigitsValue | src/tokenise.c:456 | A run of up to nine digits from a first digit gives `arabic_to_int` the decimal value of the run. |
| Tokenise.HashRunStep | src/tokenise.c:424-428 | Inside a heading's `#` run each scan returns the next `#`. At its end, if no comment can start there, the scan returns a byte other than `#`, and it is a space exactly when a space follows the run. |
| Tokenise.HashLoop | src/tokenise.c:423-428 | The loop of `tokenise_heading` as a function: it reads on while a `#` is read and ends on a later character other than `#` with a count no smaller than its start, or with the scan's error. |
| Tokenise.HashLoopPlain | src/tokenise.c:424-428 | With no comment right after the `#` run, the loop started anywhere in the run reads the rest of it plainly: the count is the run's length after its first `#`, and the character after the run is read as `Advance` says. |
| Tokenise.HashLoopNoComment | src/tokenise.c:423-428 | With no comment right after the `#` run, the loop's count is the run's length after the first `#`, the character it stops on is a space exactly when the byte after the run is one, and then the scanner has read exactly the run and the space. |
| Tokenise.AdvanceNoComment | src/tokenise.c:169-170 | A byte that cannot open a comment is the character read; a CR LF pair reads as LF. |
| Tokenise.ReferenceDigits | src/tokenise.c:355-361 | The digit loop ends at a closing `]` past the start, or fails on the first non-digit. |
| Tokenise.ReferenceScan | src/tokenise.c:347-361 | After `[` the scan ends on a closing `]` further on, the first character being neither `]` nor 0. |
| Tokenise.ReferenceNumbered | src/tokenise.c:363-367 | A reference is accepted exactly when its number is the chapter's count plus one; it then becomes the count. Errors are reported at the closing `]`. |
| Tokenise.ReferenceSpec | src/tokenise.c:345-370 | An accepted inline reference ends on its closing `]` and adds exactly one to the count. |
| Tokenise.ReferenceSpecRejects | src/tokenise.c:349-353 | `[]` is `Inline references may not be empty` and `[0` is `References must begin from 1`. |
| Tokenise.ReferenceSpecNumber | src/tokenise.c:363-367 | Once the brackets scan, the reference is decided by `arabic_to_int` of the digits alone. |
| Tokenise.DashUnit | src/tokenise.c:279-296 | Two hyphens are an en dash, three an em dash, on the last hyphen; a fourth raw hyphen is the error. |
| Tokenise.PlainUnit | src/tokenise.c:377-387 | A written unit leaves the scanner at a later or equal place; only a line feed ends the line. |
| Tokenise.MarkUnit | src/tokenise.c:374-387 | The same, with `check_emphasis` first. |
| Tokenise.CharUnit | src/tokenise.c:371-387 | The same, with `check_space` first. |
| Tokenise.UnitSpec | src/tokenise.c:332-387 | One pass of the loop body never moves the scanner back, and only a line feed ends the line. |
| Tokenise.StepSpec | src/tokenise.c:332-389 | A whole pass, with its `get_filtered_char`, moves the scanner strictly forward. |
| Tokenise.LineSpec | src/tokenise.c:330-390 | The loop ends at a line feed, never before where it started. |
| Tokenise.TextSpec | src/tokenise.c:322-401 | A leading space is the error; an accepted line leaves the scanner strictly further on. |
| Tokenise.TextEnd | src/tokenise.c:392-400 | The end of the line succeeds only with no quote and no emphasis open, giving the units and count unchanged. |
| Tokenise.TextSpecOfLine | src/tokenise.c:324-400 | Without a leading space, `tokenise_text` is the loop and then its end. |
| Tokenise.LineSpecStep | src/tokenise.c:330-390 | One pass of the loop, seen from the whole run: an error ends it, the line feed ends it, and a written unit is prefixed to the rest. |
| Tokenise.UnitSpecStep | src/tokenise.c:332-387 | Each pass writes a valid unit, moves the open markup as the markup discipline says, counts a reference sentinel, and copies a space only after a non-space. |
| Tokenise.StepKeepsWritten | src/tokenise.c:330-390 | A whole pass keeps the written units valid, legally spaced and nested, and counts its reference. |
| Tokenise.LineSpecShape | src/tokenise.c:330-390 | The loop run from any state keeps that invariant, and the count grows by the references it writes. |
| Tokenise.LineSpecFromStart | src/tokenise.c:327-390 | From a line's start, nothing open, the loop writes units that keep the invariant, and counts their references. |
| Tokenise.TextSpecWellFormed | src/tokenise.c:322-401 | What `tokenise_text` accepts is complete text: valid units, legal spacing, every quote and emphasis span closed, one count per reference. |
| Tokenise.TextSpecUnterminated | src/tokenise.c:392-400 | The three end-of-line errors are exactly the markup the units leave open, quote first; with nothing open the line is accepted if the next read succeeds. |
| Tokenise.Tokeniser.constructor | src/tokenise.c:589-595 | The context starts with both offsets at the start of the buffer, at line 1 column 1, with no tokens. |
| Tokenise.Tokeniser.GetChar | src/tokenise.c:98-163 | Agrees with `Scanner.ScanChar`: the same character, read offset, positions and errors. Nothing else changes. |
| Tokenise.Tokeniser.GetFilteredChar | src/tokenise.c:165-196 | Agrees with `Advance`: the new cursor, or the same error; the tokens and written text are unchanged. |
| Tokenise.Tokeniser.NextChar | src/tokenise.c:165-196 | A later character was read, it is `c`, the old `c` became `pc`, and the output is unchanged. |
| Tokenise.Tokeniser.ConsumeComment | src/tokenise.c:175-190 | Agrees with `Scanner.SkipComment`: same character, offset, positions and errors. |
| Tokenise.Tokeniser.PutChar | src/tokenise.c:198-201 | One copied byte is appended to the line's text and the write offset advances by one; the tokens are unchanged. |
| Tokenise.Tokeniser.PutTextToken | src/tokenise.c:203-206 | One sentinel is appended to the line's text and the write offset advances by one. |
| Tokenise.Tokeniser.SetReadPtr | src/tokenise.c:90-96 | The read offset jumps forward over bytes already checked: the new cursor is `MovedTo` the target, so the column advances by the distance jumped and `c` and `pc` become the two bytes before it. The output and token invariants are kept. |
| Tokenise.Tokeniser.AddLineToken | src/tokenise.c:61-88 | Exactly one token of the given kind is appended, at the current line and write offset, with length 0. A text kind opens its text; the others are complete. |
| Tokenise.Tokeniser.CheckSpace | src/tokenise.c:208-225 | A space after a space is `Extraneous space`; a tab is an error; a single space is copied; any other character is left alone. |
| Tokenise.Tokeniser.CheckEmphasis | src/tokenise.c:227-275 | `***` is too many asterisks; mixing strong and emphasis is an error; otherwise the sentinel `EmphasisStep` gives is written and the state moves on, consuming the second `*` of `**`. |
| Tokenise.Tokeniser.CheckDash | src/tokenise.c:277-300 | Agrees with `DashUnit` at two hyphens: the same sentinel, the scanner on the same last hyphen, or the same `Too many hyphens` error. Otherwise nothing changes and the character is left to the next check. |
| Tokenise.Tokeniser.CheckNewline | src/tokenise.c:302-319 | At a line feed the token's length becomes the number of units written and a 0 byte is appended, unless the next line starts with a space (trailing-space error). Other characters change nothing. |
| Tokenise.Tokeniser.TokeniseReference | src/tokenise.c:345-370 | Agrees with `ReferenceSpec`: the same error, or one reference sentinel written, the scanner at the closing `]` and the count one higher. |
| Tokenise.Tokeniser.CountReference | src/tokenise.c:363-369 | Agrees with `ReferenceNumbered`: too long a number or one other than the next count is the error; otherwise the count grows and one reference sentinel is written. |
| Tokenise.Tokeniser.ArabicAt | src/tokenise.c:363 | `arabic_to_int` on bytes not yet overwritten gives `ArabicValue` of the manuscript. |
| Tokenise.Tokeniser.ScanReference | src/tokenise.c:347-361 | Agrees with `ReferenceScan`: the same error, or the scanner at the closing `]`; the output is unchanged. |
| Tokenise.Tokeniser.WriteUnit | src/tokenise.c:332-387 | Agrees with `UnitSpec`: a `"` writes the quote sentinel its quote level calls for and flips the level, a `[` is a reference, and other characters go through the checks; the same unit, state and error, or the line closes at its line feed. |
| Tokenise.Tokeniser.TextCharStep | src/tokenise.c:371-387 | Agrees with `CharUnit` for characters other than `"` and `[`: the same unit, scanner and emphasis state, the same error, or the line closes. |
| Tokenise.Tokeniser.TextMarkStep | src/tokenise.c:374-387 | Agrees with `MarkUnit` for characters other than spaces and tabs. |
| Tokenise.Tokeniser.TextPlainStep | src/tokenise.c:377-387 | Agrees with `PlainUnit`: a dash pair is `DashUnit`'s dash, a line feed closes the line (or is a trailing-space error), the terminator is an error, and any other byte is copied as itself. |
| Tokenise.Tokeniser.TokeniseText | src/tokenise.c:322-401 | Agrees with `TextSpec`: the same error, or the token's text is exactly the units `TextSpec` gives, the scanner is where it says and the count is its count. Only the last token's length and text changed. |
| Tokenise.Tokeniser.FinishText | src/tokenise.c:392-400 | Agrees with `TextEnd`: an open quote, then open strong, then open emphasis is the error; otherwise the units become the token's text and the next character is read. |
| Tokenise.Tokeniser.EndText | src/tokenise.c:400 | With nothing open, agrees with `TextEnd`: the units become the token's text and the next character is read as `Advance` says. |
| Tokenise.Tokeniser.RewriteLine | src/tokenise.c:330-390 | Agrees with `LineSpec`: the same error, or the units it writes with a 0 byte after them, ending at the line feed with the quote level and emphasis `LineSpec` ends with; these units are valid, legally spaced and nested as that markup says. |
| Tokenise.Tokeniser.TextStep | src/tokenise.c:330-390 | Agrees with `StepSpec`: one unit written and the next character read, the same error, or the line closed. |
| Tokenise.Tokeniser.CloseText | src/tokenise.c:310-313 | The units written become the last token's text, the other tokens and texts stay as they were, and the token list is complete again. |
| Tokenise.Tokeniser.TextLine | src/tokenise.c:413-419 | The line's token, of the given kind and index, is added at the current line; then the text is read from the current character. The outcome agrees with `TextSpec` from the scanner as it was: the same error, or the token's text is exactly `TextSpec`'s units, with the scanner and reference count where it says. A leading space is an error. |
| Tokenise.Tokeniser.TextAfterToken | src/tokenise.c:418 | Once the token is in place and the first character of its text is in hand, the text agrees with `TextSpec` from the scanner as it was, and the token keeps its kind, index and line. |
| Tokenise.Tokeniser.TokeniseParagraph | src/tokenise.c:413-419 | `ParagraphOutcome`: one paragraph token (of a quotation when `blockquote`) at the current line, whose text is `TextSpec` read from the line's first character, error for error. A leading space is an error. |
| Tokenise.Tokeniser.TokeniseNewline | src/tokenise.c:403-411 | A blank (or indented blank) line adds exactly one newline (or block newline) token, at the current line, with empty text; the reference count is unchanged. `NewlineOutcome`: the character after the line feed is read as `Advance` says and the scanner is left where `Advance` leaves it, or `Advance`'s error is the result. |
| Tokenise.Tokeniser.MarkedLine | src/tokenise.c:505-510 | After a checked marker, the token of the kind and index is added first, at the current line, and then the character after the marker is read. The outcome agrees with `TextAfter` from the scanner at the marker's end: the read's error, the text's error, or the token's text is exactly the units it gives. So a comment after the marker that spans a line feed does not change the token's line. |
| Tokenise.Tokeniser.ScanDigits | src/tokenise.c:450-451 | The scan loop ends where `DigitEnd` says. |
| Tokenise.Tokeniser.ScanRoman | src/tokenise.c:470-476 | The scan loop ends where `RomanEnd` says. |
| Tokenise.Tokeniser.TokeniseHeading | src/tokenise.c:421-444 | A heading adds one heading token, and a level-one heading restarts the reference count. `HeadingOutcome`: the `#` are counted as `HashLoop` counts them, comments included, or the scan's error is the result; a count above 2 (more than three `#`) is too deep whatever follows, and otherwise a character other than a space after the run is an error, both reported at the position after the run; otherwise one heading token at the space's line whose level is the count and whose text is `TextAfter` the space. |
| Tokenise.Tokeniser.HeadingDepth | src/tokenise.c:423-428 | The loop's count and scanner are those of `HashLoop`, or its error. When no comment follows the run, the count is the run's length after the first `#`, the loop stops at a non-`#` which is a space exactly when one follows the run, and then the scanner is `ReadPlains` over the run and the space. |
| Tokenise.Tokeniser.CountHashes | src/tokenise.c:423-428 | The `do … while` loop, from a count of -1, computes what `HashLoop` computes: the same count and scanner, or the same error; nothing is written. |
| Tokenise.Tokeniser.HashStep | src/tokenise.c:427 | One `get_filtered_char` in the loop is one step of `HashLoop`: its error, a `#` that carries the count on, or another character that ends the loop with the count; nothing is written. |
| Tokenise.Tokeniser.TokeniseOrderedListArabic | src/tokenise.c:446-464 | `ArabicOutcome`: digits then ". " make a numbered item at the current line whose index is `arabic_to_int` of the digits and whose text is `TextAfter` the marker; more than ten bytes overflow. Anything else is a paragraph whose text is read from the first digit. |
| Tokenise.Tokeniser.ArabicLine | src/tokenise.c:453-463 | `ArabicOutcome` once the digit run's end p is known: the numbered item of `NumberedOutcome` after ". ", else the paragraph of `ParagraphOutcome` from the first digit. |
| Tokenise.Tokeniser.NumberBefore | src/tokenise.c:456 | `arabic_to_int` of the digits from the current character: none over ten bytes, else their positional value modulo 2^32. |
| Tokenise.Tokeniser.NumberedItem | src/tokenise.c:453-460 | `NumberedOutcome`: more than ten bytes overflow, reported at the first digit's position; otherwise one token (list item or reference) at the current line whose index is the digits' value and whose text agrees with `TextAfter` from just past the marker. |
| Tokenise.Tokeniser.TokeniseOrderedListRoman | src/tokenise.c:466-499 | `RomanOutcome`: numeral letters then ". " make an item at the current line whose index is the numeral's place in the table and whose text is `TextAfter` the marker; a numeral beyond the table is an error. Anything else is a paragraph read from the first letter. |
| Tokenise.Tokeniser.RomanLine | src/tokenise.c:478-498 | `RomanOutcome` once the numeral run's end p is known: the item of `NumeralOutcome` after ". ", else the paragraph of `ParagraphOutcome` from the first letter. |
| Tokenise.Tokeniser.RomanItem | src/tokenise.c:480-495 | `NumeralOutcome`: a numeral outside the table is too large, reported at the first letter's position; otherwise one item at the current line whose index is the numeral's value and whose text agrees with `TextAfter` from just past the marker. |
| Tokenise.Tokeniser.NumeralIndex | src/tokenise.c:482-493 | The table lookup with bounded comparison returns exactly the value the numeral spells, or none. |
| Tokenise.Tokeniser.TokeniseOrderedListLetter | src/tokenise.c:501-514 | `LetterOutcome`: a letter then ". " is an item at the current line whose index is the letter's place in the alphabet and whose text is `TextAfter` the marker; anything else is a paragraph (of a quotation inside one) read from the letter. |
| Tokenise.Tokeniser.TokeniseUnorderedList | src/tokenise.c:516-526 | `UnorderedOutcome`: `*` then a space is a bullet item, added once the space is read, on the space's line, whose text is `TextAfter` the space; anything else is a paragraph read from the `*`. |
| Tokenise.Tokeniser.TokeniseBlockquote | src/tokenise.c:528-541 | After a tab, exactly one block newline or block paragraph token is added. `QuoteOutcome`: the next character is read as `Advance` says, or its error is the result; a line feed gives a block newline on its line with empty text, after which the next character and the scanner are those `Advance` gives (`NewlineOutcome`); anything else gives a block paragraph whose text is `TextAfter` the tab. |
| Tokenise.Tokeniser.NextUncommented | src/tokenise.c:165-196 | Agrees with `Advance`: the same cursor or the same error. When the next byte cannot open a comment it is the character read (CR LF reads as LF), and a printable byte is always accepted as a plain read. |
| Tokenise.Tokeniser.TokeniseBracket | src/tokenise.c:543-585 | `BracketOutcome`: the character after `[` is read as `Advance` says, or its error is the result; then `BracketRead`: `[]` and `[0` are errors at that character; digits must be followed by `] `; more than ten bytes overflow; a reference line's index is the digits' value and its text is `TextAfter` the marker. Anything else is metadata: no token is added, and the result and the scanner are those `SkipSpec` gives (the character after the next line feed), or its error. |
| Tokenise.Tokeniser.BracketLine | src/tokenise.c:546-585 | `BracketRead` once the character after `[` is read: the errors with their positions, the reference line of `ReferenceRead` with its index and text, or a metadata line that adds no token and ends where `SkipSpec` ends, with its result or its error. |
| Tokenise.Tokeniser.ReferenceLine | src/tokenise.c:554-573 | `ReferenceRead`: the digits must be followed by `]` (else not numeric) and a space (else an error), both reported at the first digit's position; then `NumberedOutcome`: more than ten bytes overflow, the reference's index is their value and its text agrees with `TextAfter` the marker. |
| Tokenise.Tokeniser.SkipMetadata | src/tokenise.c:575-584 | A metadata line adds no token and leaves the written text unchanged. The result and the scanner are those of `SkipSpec`: characters are dropped up to the next line feed and the character after it is read; the end of the input before a line feed, or a scan error, is the error. |
| Tokenise.Tokeniser.DropToLineFeed | src/tokenise.c:575-579 | The `do … while` loop drops characters until a line feed is read: the result and the scanner are those of `LineFeedSpec`, or its error, and nothing is written. |
| Tokenise.LineFeedSpec | src/tokenise.c:575-579 | The metadata loop as a function: it ends on a later line feed, or fails at the end of the input or on a scan error. |
| Tokenise.SkipSpec | src/tokenise.c:575-584 | After that line feed one more character is read; the cursor ends past the line feed. |
| Tokenise.Tokeniser.TokeniseLine | src/tokenise.c:598-620 | One line adds a token of a kind its first character allows, or none for metadata. `LineOutcome`: the first character selects the handler (`[`, tab, line feed, `#`, else the rest), and the line's outcome (the kind, index, line and text of its token, the character read after it, or the error) is that handler's, for every first character. |
| Tokenise.Tokeniser.TokeniseOtherLine | src/tokenise.c:610-619 | `OtherOutcome`: `*`, a digit 1-9, a lower-case letter or `I`/`V`/`X` gives that list handler's outcome; anything else a paragraph whose text is read from the first character. |
| Tokenise.Tokeniser.Run | src/tokenise.c:587-628 | On success every token's text run decodes to valid, balanced, legally spaced units with a 0 byte after them, and the list ends with `newline` then `eof`. |
| Tokenise.Tokeniser.Finish | src/tokenise.c:622-625 | The closing `newline` and `eof` tokens are appended, and every token stays valid. |
| Tokenise.TokeniseBuffer | src/tokenise.c:587-628 | Tokenising a terminated buffer in place gives tokens whose text runs are valid, ending with `newline`, `eof`. |
| ValidateSpec.FirstEofFrom | src/validate.c:233-237 | The walk from i stops at an `eof`. |
| ValidateSpec.FirstEof | src/validate.c:233-237 | The first `eof` exists, since the stream ends with one. |
| ValidateSpec.FirstEofIsFirst | src/validate.c:233-237 | No token before the first `eof` is an `eof`. |
| ValidateSpec.EofIsFirst | src/validate.c:233-237 | An `eof` no later than the first one is the first one. |
| ValidateSpec.NewlineEnd | src/validate.c:223-224 | The blank-line skip stops at the first token that is not a `newline`. |
| ValidateSpec.NewlineRun | src/validate.c:223-224 | Every token the blank-line skip passes is a `newline`. |
| ValidateSpec.NewlineEndBeforeEof | src/validate.c:223-224 | Skipping blank lines never passes the first `eof`. |
| ValidateSpec.CheckedUpToAll | src/validate.c:229-278 | Checking token by token up to n is checking that each of the first n tokens is properly followed, before the first `eof`. |
| ValidateSpec.WellFormedChecked | src/validate.c:213-279 | A stream is well formed exactly when it opens with a level-one heading and is checked through to its first `eof`. |
| ValidateSpec.Rejected | src/validate.c:213-279 | One token before the first `eof` followed wrongly makes the stream malformed. |
| ValidateSpec.Weight | src/validate.c:37-211 | No token adds more than five elements. |
| ValidateSpec.CountKind | src/validate.c:76-77 | The number of tokens of a kind among the first n is at most n. |
| ValidateSpec.RewrittenUpTo | src/validate.c:51-63 | Rewriting breaks keeps the number of tokens. |
| ValidateSpec.RewriteSkip | src/validate.c:51-63 | Passing a token that is not a break leaves the rewritten tokens as they are. |
| ValidateSpec.RewriteBreak | src/validate.c:51-63 | Passing a break changes that token's kind to `paragraph_break` and nothing else. |
| ValidateSpec.RewriteChangesOnlyBreaks | src/validate.c:51-63 | After validation every token keeps its line and text offset; a token changes only when it is a break, and then only its kind, to `paragraph_break`. |
| ValidateSpec.BreakIsFirstOfRun | src/validate.c:51-63 | Only the first of the extra blank lines after a paragraph becomes a break. |
| ValidateSpec.BreakBetweenParagraphs | src/validate.c:51-63 | A run of blank lines between two paragraphs holds a break exactly when it has more than one blank line. |
| ValidateSpec.ElementsGrow | src/validate.c:39-44 | The element count only grows along the stream. |
| ValidateSpec.CountKindGrows | src/validate.c:74-88 | The chapter and reference counts only grow along the stream. |
| ValidateWalk.LeadingStart | src/validate.c:220 | Before the first token only blank lines have been passed. |
| ValidateWalk.LeadingStep | src/validate.c:223-224 | A leading blank line is passed and is not the last token. |
| ValidateWalk.LeadingEnd | src/validate.c:226-227 | The first printable line: a level-one heading starts the walk there; anything else makes the stream malformed. |
| ValidateWalk.PassOver | src/validate.c:275-276 | A blank line, or a kind the dispatch does not name, is passed with counts and rewrite unchanged. |
| ValidateWalk.ClosedLine | src/validate.c:68-106 | A heading, reference or preformatted block followed by a blank line counts as its kind says; followed by anything else the stream is malformed. |
| ValidateWalk.QuoteOpensBadly | src/validate.c:252-256 | A blank indented line or a citation cannot open a block quote. |
| ValidateWalk.EndOfStream | src/validate.c:233-237 | Reaching an `eof` is reaching the first one, on a well-formed stream. |
| ValidateWalk.RunStart | src/validate.c:39 | A paragraph, or a list's first item, counts three elements. |
| ValidateWalk.RunMore | src/validate.c:42-46 | A further paragraph line counts two elements, a further list item one. |
| ValidateWalk.RunBroken | src/validate.c:48-49 | A paragraph or list not ended by a blank line makes the stream malformed. |
| ValidateWalk.ListEnd | src/validate.c:190-193 | A list ends at its blank line, which the walk reaches next. |
| ValidateWalk.ParagraphEnd | src/validate.c:48-55 | A paragraph's blank line is passed; another blank line after it starts the run that may hold a break. |
| ValidateWalk.BlanksStep | src/validate.c:56-59 | Further blank lines are passed with counts unchanged. |
| ValidateWalk.BlanksEnd | src/validate.c:56-63 | At the end of the blank lines, the first extra one is rewritten exactly when a paragraph follows. |
| ValidateWalk.QuoteStart | src/validate.c:159-161 | A block quote counts five elements. |
| ValidateWalk.QuoteLineFollows | src/validate.c:162-174 | A quote line just read properly follows the line before it. |
| ValidateWalk.QuoteStep | src/validate.c:108-155 | Each quote line counts its elements. It is followed by what its handler accepts, or the stream is malformed. |
| ValidateWalk.QuoteClosed | src/validate.c:170-171 | A blank unindented line ends the quote and is reached next. |
| ValidateWalk.QuoteBroken | src/validate.c:172-173 | Any other line after the quote's first paragraph makes the stream malformed. |
| ValidateWalk.BreakStart | src/validate.c:121-122 | A paragraph break is passed with counts unchanged. |
| ValidateWalk.BreakStep | src/validate.c:123-124 | Blank lines after it are passed. |
| ValidateWalk.BreakEnd | src/validate.c:126-127 | After a paragraph break and its blank lines a paragraph must follow, or the stream is malformed. |
| Validate.QuoteDispatch | src/validate.c:164-173 | The block-quote loop, as written, ends on a blank line, goes to a handler for the three quote lines, and reaches `assert(false)` exactly on every other kind. |
| Validate.QuoteThenParagraph | src/validate.c:157-177 | The token kinds of "# T\n\n\tq\np\n" end with `eof`. |
| Validate.QuoteThenParagraphAsserts | src/validate.c:157-177 | On that stream the walk accepts everything before the block quote, then reads a paragraph that takes the `assert(false)` branch, although the stream is merely malformed. |
| Validate.Validator.constructor | src/validate.c:215-218 | The context holds the tokens, with the cursor and all counters at 0. |
| Validate.Validator.NextToken | src/validate.c:27-35 | The token at the cursor is returned, the cursor advances by one, and the line becomes the token's. |
| Validate.Validator.RunLines | src/validate.c:42-46 | The loop passes the further lines of one kind, counting them, and stops at the first other token. |
| Validate.Validator.ValidateParagraph | src/validate.c:37-66 | On success the walk is at the next token to dispatch, which is not a blank line, with counts and breaks up to date. A paragraph not followed by a blank line is the error, on a malformed stream. |
| Validate.Validator.BlankLines | src/validate.c:51-63 | The extra blank lines are passed, and the first is rewritten to a paragraph break exactly when a paragraph follows. |
| Validate.Validator.ValidateHeading | src/validate.c:68-84 | A heading counts one element (and one chapter at level one), and returns the blank line after it; anything else is the error, on a malformed stream. |
| Validate.Validator.ValidateReference | src/validate.c:86-95 | A reference counts one reference and returns the blank line after it; otherwise the error, on a malformed stream. |
| Validate.Validator.ValidatePreformatted | src/validate.c:97-106 | A preformatted block counts one element and returns the blank line after it; otherwise the error, on a malformed stream. |
| Validate.Validator.ValidateBlockNewline | src/validate.c:108-117 | A blank indented line must be followed by an indented paragraph or a citation; otherwise the error, on a malformed stream. |
| Validate.Validator.ValidateBlockParagraph | src/validate.c:132-141 | A further indented paragraph must be followed by a quote line or a blank line; otherwise the error, on a malformed stream. |
| Validate.Validator.ValidateBlockCitation | src/validate.c:143-155 | A citation must be followed by a blank unindented line; otherwise the error, on a malformed stream. |
| Validate.Validator.ValidateQuoteLine | src/validate.c:162-174 | One round of the quote loop: the walk stays inside the quote, or one of the three quote errors is reported on a malformed stream. A non-quote line is an error, not `assert(false)`. |
| Validate.Validator.ValidateBlockquote | src/validate.c:157-177 | A block quote returns the blank line that ends it, counts and breaks up to date; or one of the quote errors, on a malformed stream. |
| Validate.Validator.ValidateParagraphBreak | src/validate.c:119-130 | A paragraph break is followed, after blank lines, by the paragraph it returns; otherwise the error, on a malformed stream. |
| Validate.Validator.ValidateList | src/validate.c:179-211 | A list counts three elements plus one per further item of its kind and returns its blank line; otherwise the error, on a malformed stream. |
| Validate.Validator.SkipToken | src/validate.c:275-276 | The default branch passes the token and reads the next, keeping the walk's invariant. |
| Validate.Validator.Run | src/validate.c:213-279 | Succeeds exactly on a well-formed stream. Then it reports the level-one headings, elements and references up to the first `eof`, and leaves the array equal to the rewritten stream. |
| Validate.Validator.Dispatch | src/validate.c:231-277 | Each handler leaves the walk at a later token with the invariant kept, or reports an error only on a malformed stream. The missing `break` after the unordered list passes its blank line. |
| Validate.ValidateTokens | src/validate.c:213-279 | `validate` succeeds exactly on well-formed token arrays, reports their counts up to the first `eof`, and rewrites their breaks in place. |

## Left out

- Error reporting: `handle_tokenise_error` and `handle_validate_error` print a message,
  then run `assert(false)` and only then `exit(EXIT_FAILURE)` (src/tokenise.c:57-58,
  src/validate.c:23-24). Unless `NDEBUG` is defined, every error therefore aborts the
  program right after its message; with `NDEBUG` it exits with a failure status. Here
  both handlers return an error kind with the line (and column). The message text, the
  `va_list` formatting, the abort and the exit are not modelled.
- `add_line_token` grows the token array by `realloc` in pages. Tokens are a sequence here,
  so allocation failure and the page arithmetic are not modelled.
- The `text` pointer of `newline` and `eof` tokens (`nullptr` when `NDEBUG` is not defined)
  is the write offset here. Unset `index` and `length` fields are 0.
- The `static_assert`s on the size of `line_token` concern memory layout only.
- Metadata lines are skipped as the source skips them; no meaning is given to their content.
- `src/html.c`, `src/epub.c`, `src/unity.c` and `src/util.h` are not part of this model.
- Reading past the terminator (`tokenise_text` or the metadata loop meeting the 0 byte)
  reads outside the buffer in C. The model reports the error `EndOfInputInLine` instead.
- `arabic_to_int` with more than ten bytes before the terminator writes past its 10-slot
  array in C. The model reports `NumberTooLong` instead. The result otherwise wraps modulo
  2^32, with signed-char digit values, as in C.
- Line, column, token counts, `ref_count` and the validator's counters are unbounded
  naturals: their `uint32_t` wrap-around, which needs more than 4 billion lines or
  elements, is not modelled.
- A tab does not advance the column, as in `get_char`.
- Tokenise.Tokeniser.SetReadPtr: the column after jumping over a list marker is stated as
  `set_read_ptr` computes it. Whether it is the column of the next character is not stated.
- Tokenise.Tokeniser.NextChar: states only that a later character was read. Callers that
  need the exact scan use `GetFilteredChar`.
- Tokenise.TokeniseBuffer: states that every token's text run decodes to valid, balanced,
  legally spaced units followed by a 0 byte, and that the list ends with `newline`, `eof`.
  The kinds, indices, lines and texts of the tokens are not stated as a function of the
  whole manuscript. They are stated one line at a time, by `TokeniseLine`'s `LineOutcome`
  (which gives the token of each line, its text as `TextSpec` or `TextAfter` computes it,
  or the error), but no function of the whole manuscript chains these line outcomes.
- Tokenise.Tokeniser.Run: the same gap as `Tokenise.TokeniseBuffer`. Each pass of the loop
  is one call of `TokeniseLine`, whose contract states that line's outcome; the loop
  invariant keeps only the token invariants, not a specification of the list so far.
- Validate.Validator.Run: the line carried by a validation error is not specified, and
  neither is which of the quote errors a malformed quote gets.
- Validate.Validator.NextToken: the `assert(ctx->current < ctx->token_count)` is a
  precondition. It always holds, because the walk stops at the first `eof`.
- `validate_heading`'s `assert(level >= 0 && level < 3)` is proved (`HeadingDepthRoundTrip`).

## Findings

| source | as written | input that shows it | evidently intended | confidence | as-written member | corrected member |
|---|---|---|---|---|---|---|
| src/validate.c:161-173 | `validate_blockquote` reads the token after the quote's first indented paragraph without checking it. When that token is none of block newline, block paragraph, block citation or newline, the loop reaches `assert(false)`: an abort, or with `NDEBUG` an endless loop on the same token. In a build without `NDEBUG` the error handler also ends in `assert(false)` (src/validate.c:23), so there the as-written behaviour differs from the intended error only by the missing message. | "# T\n\n\tq\np\n", token kinds heading 1, newline, block paragraph, paragraph, newline, eof | the error "Block quotes must be followed by a blank indented line", which `validate_block_paragraph` reports for later indented paragraphs | not executed | Validate.QuoteThenParagraphAsserts | Validate.Validator.ValidateQuoteLine |
