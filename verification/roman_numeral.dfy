/** The table of Roman-numeral list markers (I to XXVI) and the length-bounded
    comparison the line classifier uses to look a marker up in it. */
module RomanNumeral {
  import opened Wrappers
  import opened Tokens

  const RomanNumeralMax: nat := 26

  /** Entry i is the marker of list item i + 1. */
  const RomanUpperStrings: seq<string> := [
    "I. ", "II. ", "III. ", "IV. ", "V. ", "VI. ", "VII. ", "VIII. ", "IX. ", "X. ",
    "XI. ", "XII. ", "XIII. ", "XIV. ", "XV. ", "XVI. ", "XVII. ", "XVIII. ", "XIX. ", "XX. ",
    "XXI. ", "XXII. ", "XXIII. ", "XXIV. ", "XXV. ", "XXVI. "
  ]

  // An independent reference definition: the canonical upper-case numeral of 1..39.

  function UnitsNumeral(d: nat): string
    requires d < 10
  {
    ["", "I", "II", "III", "IV", "V", "VI", "VII", "VIII", "IX"][d]
  }

  function TensNumeral(k: nat): string
  {
    if k == 0 then "" else "X" + TensNumeral(k - 1)
  }

  function ToRoman(n: nat): string
    requires 1 <= n < 40
  {
    TensNumeral(n / 10) + UnitsNumeral(n % 10)
  }

  predicate IsRomanChar(c: char) { c == 'I' || c == 'V' || c == 'X' }

  /** The number of leading 'X' characters of a string. */
  function LeadingX(s: string): nat
  {
    if s != [] && s[0] == 'X' then 1 + LeadingX(s[1..]) else 0
  }

  lemma {:induction false} TensThenRest(k: nat, rest: string)
    requires rest == [] || rest[0] != 'X'
    ensures |TensNumeral(k)| == k
    ensures LeadingX(TensNumeral(k) + rest) == k
    ensures (TensNumeral(k) + rest)[k..] == rest
  {
    if k > 0 {
      TensThenRest(k - 1, rest);
      assert TensNumeral(k) + rest == "X" + (TensNumeral(k - 1) + rest);
      assert ("X" + (TensNumeral(k - 1) + rest))[1..] == TensNumeral(k - 1) + rest;
    }
  }

  /** The reference numerals are pairwise distinct: a numeral determines its value. */
  lemma ToRomanInjective(m: nat, n: nat)
    requires 1 <= m < 40 && 1 <= n < 40
    ensures ToRoman(m) == ToRoman(n) ==> m == n
  {
    var um, un := UnitsNumeral(m % 10), UnitsNumeral(n % 10);
    assert um == [] || um[0] != 'X';
    assert un == [] || un[0] != 'X';
    TensThenRest(m / 10, um);
    TensThenRest(n / 10, un);
    if ToRoman(m) == ToRoman(n) {
      assert m / 10 == n / 10;
      assert um == un;
      assert m % 10 == n % 10;
    }
  }

  /** The reference numerals use the alphabet I, V, X only. */
  lemma {:induction false} ToRomanAlphabet(n: nat)
    requires 1 <= n < 40
    ensures forall k :: 0 <= k < |ToRoman(n)| ==> IsRomanChar(ToRoman(n)[k])
    ensures |ToRoman(n)| > 0
  {
    TensAlphabet(n / 10);
    var u := UnitsNumeral(n % 10);
    assert forall k :: 0 <= k < |u| ==> IsRomanChar(u[k]);
  }

  lemma {:induction false} TensAlphabet(k: nat)
    ensures forall j :: 0 <= j < |TensNumeral(k)| ==> TensNumeral(k)[j] == 'X'
  {
    if k > 0 { TensAlphabet(k - 1); }
  }

  /** The table has exactly RomanNumeralMax entries and entry i is the canonical numeral
      of i + 1 followed by ". ". */
  lemma TableEntries()
    ensures |RomanUpperStrings| == RomanNumeralMax
    ensures forall i :: 0 <= i < RomanNumeralMax ==> RomanUpperStrings[i] == ToRoman(i + 1) + ". "
  {
    forall i | 0 <= i < RomanNumeralMax
      ensures RomanUpperStrings[i] == ToRoman(i + 1) + ". "
    {
      TableEntry(i);
    }
  }

  lemma TableEntry(i: nat)
    requires i < RomanNumeralMax
    ensures RomanUpperStrings[i] == ToRoman(i + 1) + ". "
  {
    if i < 9 {
      UnitEntry(i);
    } else if i < 19 {
      TeenEntry(i);
    } else {
      TwentyEntry(i);
    }
  }

  lemma UnitEntry(i: nat)
    requires i < 9
    ensures RomanUpperStrings[i] == ToRoman(i + 1) + ". "
  {
    assert TensNumeral(0) == "";
  }

  lemma TeenEntry(i: nat)
    requires 9 <= i < 19
    ensures RomanUpperStrings[i] == ToRoman(i + 1) + ". "
  {
    assert TensNumeral(1) == "X" by { assert TensNumeral(0) == ""; }
  }

  lemma TwentyEntry(i: nat)
    requires 19 <= i < RomanNumeralMax
    ensures RomanUpperStrings[i] == ToRoman(i + 1) + ". "
  {
    assert TensNumeral(2) == "XX" by { assert TensNumeral(1) == "X" by { assert TensNumeral(0) == ""; } }
  }

  /** Entries are pairwise distinct. */
  lemma TableDistinct(i: nat, j: nat)
    requires i < RomanNumeralMax && j < RomanNumeralMax && i != j
    ensures RomanUpperStrings[i] != RomanUpperStrings[j]
  {
    TableEntry(i);
    TableEntry(j);
    var a, b := ToRoman(i + 1), ToRoman(j + 1);
    if a + ". " == b + ". " {
      SuffixCancels(a, b, ". ");
      ToRomanInjective(i + 1, j + 1);
    }
  }

  lemma SuffixCancels(a: string, b: string, suffix: string)
    requires a + suffix == b + suffix
    ensures a == b
  {
    assert |a| == |b|;
    assert a == (a + suffix)[..|a|] == (b + suffix)[..|b|] == b;
  }

  // The byte view of the table, as the lookup compares it with the buffer.

  function ByteOf(c: char): byte { ((c as int) % 256) as byte }

  function AsciiBytes(s: string): (r: seq<byte>)
    ensures |r| == |s|
  {
    seq(|s|, k requires 0 <= k < |s| => ByteOf(s[k]))
  }

  predicate IsRomanByte(b: byte) { b == UpperI || b == UpperV || b == UpperX }

  predicate AllRomanBytes(s: seq<byte>) { forall k :: 0 <= k < |s| ==> IsRomanByte(s[k]) }

  /** The bytes of the numeral of n, without the ". " suffix. */
  function NumeralBytes(n: nat): seq<byte>
    requires 1 <= n < 40
  {
    AsciiBytes(ToRoman(n))
  }

  function EntryBytes(i: nat): seq<byte>
    requires i < RomanNumeralMax
  {
    AsciiBytes(RomanUpperStrings[i])
  }

  lemma EntryShape(i: nat)
    requires i < RomanNumeralMax
    ensures EntryBytes(i) == NumeralBytes(i + 1) + [Period, Space]
    ensures |NumeralBytes(i + 1)| > 0
    ensures AllRomanBytes(NumeralBytes(i + 1))
  {
    TableEntry(i);
    ToRomanAlphabet(i + 1);
    var r := ToRoman(i + 1);
    assert AsciiBytes(r + ". ") == AsciiBytes(r) + [Period, Space];
  }

  // strncmp over NUL-terminated byte strings: reading past the end of a sequence reads 0.

  function ByteAt(s: seq<byte>, k: nat): byte { if k < |s| then s[k] else Nul }

  /** strncmp(a + k, b + k, n - k) == 0 */
  function StrncmpFrom(a: seq<byte>, b: seq<byte>, n: nat, k: nat): bool
    decreases n - k
  {
    if k >= n then true
    else if ByteAt(a, k) != ByteAt(b, k) then false
    else if ByteAt(a, k) == Nul then true
    else StrncmpFrom(a, b, n, k + 1)
  }

  function StrncmpEqual(a: seq<byte>, b: seq<byte>, n: nat): bool
  {
    StrncmpFrom(a, b, n, 0)
  }

  /** Bytes k..n of a agree with those of b. */
  predicate AgreeFrom(a: seq<byte>, b: seq<byte>, n: nat, k: nat)
    requires k <= n <= |a|
  {
    k == n || (n <= |b| && a[k..n] == b[k..n])
  }

  /** Over strings without an early NUL, strncmp compares the first n bytes exactly. */
  lemma {:induction false} StrncmpExact(a: seq<byte>, b: seq<byte>, n: nat, k: nat)
    requires k <= n <= |a|
    requires forall j :: 0 <= j < n ==> a[j] != Nul
    requires forall j :: 0 <= j < |b| ==> b[j] != Nul
    ensures StrncmpFrom(a, b, n, k) <==> AgreeFrom(a, b, n, k)
    decreases n - k
  {
    if k < n {
      StrncmpExact(a, b, n, k + 1);
      assert ByteAt(a, k) == a[k] != Nul;
      if k >= |b| {
        assert ByteAt(b, k) == Nul;
      } else {
        assert ByteAt(b, k) == b[k];
        if n <= |b| {
          assert a[k..n] == [a[k]] + a[k + 1..n];
          assert b[k..n] == [b[k]] + b[k + 1..n];
        }
      }
    }
  }

  /** The lookup of the classifier: the first entry that strncmp reports equal over `len`
      bytes. Its result is the list index, entry position + 1. */
  method LookupRoman(s: seq<byte>, len: nat) returns (index: Option<nat>)
    ensures index.Some? ==> (1 <= index.value <= RomanNumeralMax
      && StrncmpEqual(s, EntryBytes(index.value - 1), len)
      && forall j :: 0 <= j < index.value - 1 ==> !StrncmpEqual(s, EntryBytes(j), len))
    ensures index.None? ==> forall j :: 0 <= j < RomanNumeralMax ==> !StrncmpEqual(s, EntryBytes(j), len)
  {
    var i := 0;
    while i < RomanNumeralMax
      invariant 0 <= i <= RomanNumeralMax
      invariant forall j :: 0 <= j < i ==> !StrncmpEqual(s, EntryBytes(j), len)
    {
      if StrncmpEqual(s, EntryBytes(i), len) {
        return Some(i + 1);
      }
      i := i + 1;
    }
    return None;
  }

  /** The bounded comparison of a scanned marker with an entry succeeds exactly when the
      marker is that entry: the numeral must equal the canonical numeral of i + 1. */
  lemma MarkerMatchesEntry(numeral: seq<byte>, rest: seq<byte>, i: nat)
    requires i < RomanNumeralMax
    requires AllRomanBytes(numeral)
    ensures StrncmpEqual(numeral + [Period, Space] + rest, EntryBytes(i), |numeral| + 2)
        <==> numeral == NumeralBytes(i + 1)
  {
    var a := numeral + [Period, Space] + rest;
    var e := EntryBytes(i);
    var u := NumeralBytes(i + 1);
    var n := |numeral| + 2;
    EntryShape(i);
    assert forall j :: 0 <= j < n ==> a[j] != Nul;
    assert forall j :: 0 <= j < |e| ==> e[j] != Nul;
    StrncmpExact(a, e, n, 0);
    if StrncmpEqual(a, e, n) {
      // The entry's '.' can only sit where the marker's '.' does.
      var q := |numeral|;
      assert a[..n] == e[..n];
      assert a[q] == Period && e[q] == Period;
      assert |u| == q;
      assert numeral == a[..q] == e[..q] == u;
    }
    if numeral == u {
      assert a[..n] == e;
    }
  }

  /** The value a numeral spells, if it is one of the table's: searched from k on. */
  function NumeralValueFrom(numeral: seq<byte>, k: nat): (v: Option<nat>)
    requires 1 <= k
    ensures v.Some? ==> k <= v.value <= RomanNumeralMax
    decreases RomanNumeralMax + 1 - k
  {
    if k > RomanNumeralMax then None
    else if NumeralBytes(k) == numeral then Some(k)
    else NumeralValueFrom(numeral, k + 1)
  }

  function NumeralValue(numeral: seq<byte>): (v: Option<nat>)
    ensures v.Some? ==> 1 <= v.value <= RomanNumeralMax
  {
    NumeralValueFrom(numeral, 1)
  }

  /** A value found is one whose numeral is the one searched for. */
  lemma {:induction false} NumeralValueFromSpells(numeral: seq<byte>, k: nat)
    requires 1 <= k
    ensures NumeralValueFrom(numeral, k).Some? ==> NumeralBytes(NumeralValueFrom(numeral, k).value) == numeral
    decreases RomanNumeralMax + 1 - k
  {
    if k <= RomanNumeralMax && NumeralBytes(k) != numeral {
      NumeralValueFromSpells(numeral, k + 1);
    }
  }

  /** The search from k finds every table numeral of value k or more. */
  lemma {:induction false} NumeralValueFromFinds(numeral: seq<byte>, k: nat, j: nat)
    requires 1 <= k <= j <= RomanNumeralMax && NumeralBytes(j) == numeral
    ensures NumeralValueFrom(numeral, k).Some?
    decreases j - k
  {
    if k < j {
      NumeralValueFromFinds(numeral, k + 1, j);
    }
  }

  /** NumeralValue inverts the table: it finds exactly the value whose numeral it is given. */
  lemma NumeralValueInverse(n: nat)
    requires 1 <= n <= RomanNumeralMax
    ensures NumeralValue(NumeralBytes(n)) == Some(n)
  {
    NumeralValueFromFinds(NumeralBytes(n), 1, n);
    NumeralValueFromSpells(NumeralBytes(n), 1);
    NumeralBytesInjective(NumeralValue(NumeralBytes(n)).value, n);
  }

  /** What the lookup's answer means for a scanned marker: the value its numeral spells,
      or none when the numeral is none of the table's. */
  lemma LookupMeaning(numeral: seq<byte>, rest: seq<byte>, index: Option<nat>)
    requires AllRomanBytes(numeral)
    requires index.Some? ==> (1 <= index.value <= RomanNumeralMax
      && StrncmpEqual(numeral + [Period, Space] + rest, EntryBytes(index.value - 1), |numeral| + 2))
    requires index.None? ==> (forall j :: 0 <= j < RomanNumeralMax ==>
      !StrncmpEqual(numeral + [Period, Space] + rest, EntryBytes(j), |numeral| + 2))
    ensures index == NumeralValue(numeral)
  {
    if index.Some? {
      LookupFound(numeral, rest, index.value);
    } else {
      LookupMissed(numeral, rest);
    }
  }

  lemma LookupFound(numeral: seq<byte>, rest: seq<byte>, n: nat)
    requires AllRomanBytes(numeral) && 1 <= n <= RomanNumeralMax
    requires StrncmpEqual(numeral + [Period, Space] + rest, EntryBytes(n - 1), |numeral| + 2)
    ensures NumeralValue(numeral) == Some(n)
  {
    MarkerMatchesEntry(numeral, rest, n - 1);
    NumeralValueInverse(n);
  }

  lemma LookupMissed(numeral: seq<byte>, rest: seq<byte>)
    requires AllRomanBytes(numeral)
    requires forall j :: 0 <= j < RomanNumeralMax ==>
      !StrncmpEqual(numeral + [Period, Space] + rest, EntryBytes(j), |numeral| + 2)
    ensures NumeralValue(numeral) == None
  {
    if NumeralValue(numeral).Some? {
      var v := NumeralValue(numeral).value;
      NumeralValueFromSpells(numeral, 1);
      MarkerMatchesEntry(numeral, rest, v - 1);
      assert false;
    }
  }

  /** Consequently at most one entry matches a scanned marker. */
  lemma LookupIsUnique(numeral: seq<byte>, rest: seq<byte>, i: nat, j: nat)
    requires i < RomanNumeralMax && j < RomanNumeralMax
    requires AllRomanBytes(numeral)
    requires StrncmpEqual(numeral + [Period, Space] + rest, EntryBytes(i), |numeral| + 2)
    requires StrncmpEqual(numeral + [Period, Space] + rest, EntryBytes(j), |numeral| + 2)
    ensures i == j
  {
    LookupFound(numeral, rest, i + 1);
    LookupFound(numeral, rest, j + 1);
  }

  /** Distinct values have distinct numerals, in bytes too. */
  lemma NumeralBytesInjective(i: nat, j: nat)
    requires 1 <= i < 40 && 1 <= j < 40
    ensures NumeralBytes(i) == NumeralBytes(j) ==> i == j
  {
    var r, t := ToRoman(i), ToRoman(j);
    ToRomanAlphabet(i);
    ToRomanAlphabet(j);
    AsciiBytesInjective(r, t);
    ToRomanInjective(i, j);
  }

  /** On numeral characters the byte view loses nothing. */
  lemma AsciiBytesInjective(r: string, s: string)
    requires forall k :: 0 <= k < |r| ==> IsRomanChar(r[k])
    requires forall k :: 0 <= k < |s| ==> IsRomanChar(s[k])
    ensures AsciiBytes(r) == AsciiBytes(s) ==> r == s
  {
    if AsciiBytes(r) == AsciiBytes(s) {
      forall k | 0 <= k < |r| ensures r[k] == s[k] {
        assert ByteOf(r[k]) == AsciiBytes(r)[k] == AsciiBytes(s)[k] == ByteOf(s[k]);
        assert IsRomanChar(r[k]) && IsRomanChar(s[k]);
      }
    }
  }
}
