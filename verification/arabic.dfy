/** `arabic_to_int`: the decimal value of the raw bytes before a terminator, computed in
    32-bit unsigned arithmetic from a 10-slot digit buffer. */
module Arabic {
  import opened Wrappers
  import opened Tokens

  /** 2^32: `uint32_t` arithmetic is taken modulo this. */
  const U32: nat := 0x1_0000_0000

  /** The digit buffer holds this many digits. */
  const DigitSlots: nat := 10

  function Pow10(k: nat): (p: nat)
    ensures p >= 1
  {
    if k == 0 then 1 else 10 * Pow10(k - 1)
  }

  /** The value of a (signed) `char` byte. */
  function Signed(b: byte): int
  {
    if b < 0x80 then b as int else b as int - 0x100
  }

  /** `*str - '0'` stored into a `uint32_t` slot. */
  function DigitValue(b: byte): (d: nat)
    ensures d < U32
    ensures Digit0 <= b <= Digit9 ==> d == (b - Digit0) as nat
  {
    (Signed(b) - Digit0 as int) % U32
  }

  function DigitValues(s: seq<byte>): (ds: seq<nat>)
    ensures |ds| == |s|
    ensures forall i :: 0 <= i < |s| ==> ds[i] == DigitValue(s[i])
  {
    seq(|s|, i requires 0 <= i < |s| => DigitValue(s[i]))
  }

  /** The positional value of a digit sequence, most significant digit first. */
  function Positional(ds: seq<nat>): nat
  {
    if ds == [] then 0 else ds[0] * Pow10(|ds| - 1) + Positional(ds[1..])
  }

  /** The number of bytes from `from` up to the first `t`. */
  function RunLength(s: seq<byte>, from: nat, t: byte): (n: nat)
    requires from <= |s| && t in s[from..]
    ensures from + n < |s| && s[from + n] == t
    ensures forall j :: from <= j < from + n ==> s[j] != t
    decreases |s| - from
  {
    if s[from] == t then 0
    else
      assert s[from..] == [s[from]] + s[from + 1..];
      1 + RunLength(s, from + 1, t)
  }

  /** `arabic_to_int(str, terminator)` on the bytes of `data` from `from`. The result is
      None when the run is longer than the 10-slot digit buffer (which the source overflows);
      otherwise it is the positional value of the digit values, modulo 2^32. */
  method ArabicToInt(data: array<byte>, from: nat, terminator: byte) returns (r: Option<nat>)
    requires from <= data.Length && terminator in data[from..]
    ensures RunLength(data[..], from, terminator) > DigitSlots ==> r == None
    ensures RunLength(data[..], from, terminator) <= DigitSlots
      ==> r == Some(Positional(DigitValues(data[from .. from + RunLength(data[..], from, terminator)])) % U32)
  {
    ghost var n := RunLength(data[..], from, terminator);
    var digits := new nat[DigitSlots];
    var current := 0;
    while data[from + current] != terminator
      invariant current <= n && current <= DigitSlots
      invariant digits[..current] == DigitValues(data[from .. from + current])
      decreases n - current
    {
      if current == DigitSlots {
        return None;
      }
      digits[current] := DigitValue(data[from + current]);
      current := current + 1;
      assert data[from .. from + current] == data[from .. from + current - 1] + [data[from + current - 1]];
    }
    assert data[..][from + current] == terminator;
    assert current == n;
    var result := Accumulate(digits, current);
    return Some(result);
  }

  /** The second loop of `arabic_to_int`: digits are weighted from the last one up, the sum
      and the multiplier both kept in `uint32_t`. */
  method Accumulate(digits: array<nat>, count: nat) returns (result: nat)
    requires count <= digits.Length
    ensures result == Positional(digits[..count]) % U32
  {
    result := 0;
    var multiplier := 1;
    var i := count;
    while i > 0
      invariant 0 <= i <= count
      invariant result == Positional(digits[..count][i..]) % U32
      invariant multiplier == Pow10(count - i) % U32
    {
      i := i - 1;
      HornerStep(digits[..count], i);
      result, multiplier := (result + digits[i] * multiplier) % U32, (multiplier * 10) % U32;
    }
  }

  /** One step of the accumulation loop: adding digit i at weight 10^(|ds|-1-i), with the
      running sum and the multiplier both kept modulo 2^32. */
  lemma HornerStep(ds: seq<nat>, i: nat)
    requires i < |ds|
    ensures (Positional(ds[i + 1..]) % U32 + ds[i] * (Pow10(|ds| - 1 - i) % U32)) % U32
      == Positional(ds[i..]) % U32
    ensures (Pow10(|ds| - 1 - i) % U32 * 10) % U32 == Pow10(|ds| - i) % U32
  {
    assert ds[i..][1..] == ds[i + 1..];
    AccumulateDigit(Positional(ds[i + 1..]), ds[i], Pow10(|ds| - 1 - i));
    MultiplierStep(Pow10(|ds| - 1 - i));
  }

  /** Adding a digit's weight modulo 2^32 agrees with adding it exactly. */
  lemma AccumulateDigit(rest: nat, d: nat, w: nat)
    ensures (rest % U32 + d * (w % U32)) % U32 == (d * w + rest) % U32
  {
    var q := w / U32;
    assert w == q * U32 + w % U32;
    assert d * w == d * (w % U32) + (d * q) * U32;
    ModAddMultiple(rest % U32 + d * (w % U32), d * q);
    ModAddMultiple(d * (w % U32) + rest % U32, rest / U32);
    assert rest == rest % U32 + (rest / U32) * U32;
  }

  lemma MultiplierStep(w: nat)
    ensures (w % U32 * 10) % U32 == (10 * w) % U32
  {
    var q := w / U32;
    assert w == q * U32 + w % U32;
    assert 10 * w == w % U32 * 10 + (10 * q) * U32;
    ModAddMultiple(w % U32 * 10, 10 * q);
  }

  lemma ModAddMultiple(x: nat, k: nat)
    ensures (x + k * U32) % U32 == x % U32
  {
  }

  /** The decimal value of a run of ASCII digits. */
  predicate AllDigits(s: seq<byte>) { forall i :: 0 <= i < |s| ==> IsDigit(s[i]) }

  function DecimalValue(s: seq<byte>): nat
    requires AllDigits(s)
  {
    if s == [] then 0 else DecimalValue(s[..|s| - 1]) * 10 + (s[|s| - 1] - Digit0) as nat
  }

  lemma {:induction false} PositionalBound(ds: seq<nat>)
    requires forall i :: 0 <= i < |ds| ==> ds[i] <= 9
    ensures Positional(ds) < Pow10(|ds|)
  {
    if ds != [] {
      var w := Pow10(|ds| - 1);
      PositionalBound(ds[1..]);
      MulMonotone(ds[0], 9, w);
      assert Pow10(|ds|) == 10 * w;
    }
  }

  lemma MulMonotone(a: nat, b: nat, c: nat)
    requires a <= b
    ensures a * c <= b * c
  {
  }

  /** Appending a digit on the right scales the rest by ten. */
  lemma {:induction false} PositionalSnoc(ds: seq<nat>, d: nat)
    ensures Positional(ds + [d]) == Positional(ds) * 10 + d
  {
    if ds == [] {
      assert [d][1..] == [];
    } else {
      assert (ds + [d])[1..] == ds[1..] + [d];
      PositionalSnoc(ds[1..], d);
      calc {
        Positional(ds + [d]);
        ds[0] * Pow10(|ds|) + Positional(ds[1..] + [d]);
        ds[0] * (10 * Pow10(|ds| - 1)) + Positional(ds[1..]) * 10 + d;
        { assert ds[0] * (10 * Pow10(|ds| - 1)) == (ds[0] * Pow10(|ds| - 1)) * 10; }
        (ds[0] * Pow10(|ds| - 1) + Positional(ds[1..])) * 10 + d;
      }
    }
  }

  /** On ASCII digits the positional value is the decimal number they spell. */
  lemma {:induction false} PositionalIsDecimal(s: seq<byte>)
    requires AllDigits(s)
    ensures Positional(DigitValues(s)) == DecimalValue(s)
  {
    if s != [] {
      var init := s[..|s| - 1];
      assert AllDigits(init);
      PositionalIsDecimal(init);
      assert DigitValues(s) == DigitValues(init) + [(s[|s| - 1] - Digit0) as nat];
      PositionalSnoc(DigitValues(init), (s[|s| - 1] - Digit0) as nat);
    }
  }

  /** With at most nine ASCII digits nothing wraps: the result is the decimal value. */
  lemma NineDigitsExact(s: seq<byte>)
    requires AllDigits(s) && |s| <= 9
    ensures Positional(DigitValues(s)) % U32 == DecimalValue(s)
    ensures DecimalValue(s) < Pow10(9)
  {
    var ds := DigitValues(s);
    forall i | 0 <= i < |ds|
      ensures ds[i] <= 9
    {
      assert IsDigit(s[i]);
    }
    PositionalIsDecimal(s);
    PositionalBound(ds);
    Pow10Monotone(|s|, 9);
    Pow10Nine();
    SmallModulus(DecimalValue(s));
  }

  lemma SmallModulus(x: nat)
    requires x < U32
    ensures x % U32 == x
  {
  }

  lemma Pow10Nine()
    ensures Pow10(9) == 1000000000 < U32
  {
    assert Pow10(3) == 1000;
    assert Pow10(6) == 1000 * Pow10(3) by {
      assert Pow10(6) == 10 * Pow10(5) && Pow10(5) == 10 * Pow10(4) && Pow10(4) == 10 * Pow10(3);
    }
    assert Pow10(9) == 1000 * Pow10(6) by {
      assert Pow10(9) == 10 * Pow10(8) && Pow10(8) == 10 * Pow10(7) && Pow10(7) == 10 * Pow10(6);
    }
  }

  lemma {:induction false} Pow10Monotone(j: nat, k: nat)
    requires j <= k
    ensures Pow10(j) <= Pow10(k)
    decreases k
  {
    if j < k {
      Pow10Monotone(j, k - 1);
    }
  }
}
