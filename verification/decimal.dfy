/** Decimal text of unsigned 32-bit integers: Rust's `str::parse::<u32>`
    (used on every band token) and `u32::to_string` (used for the title). */
module Decimal {
  import opened Outcomes

  /** The largest `u32`. */
  const MaxU32: nat := 4294967295

  predicate IsDigit(c: char) {
    '0' <= c <= '9'
  }

  function DigitValue(c: char): (d: nat)
    requires IsDigit(c)
    ensures d < 10
  {
    c as int - '0' as int
  }

  function DigitChar(d: nat): (c: char)
    requires d < 10
    ensures IsDigit(c) && DigitValue(c) == d
  {
    ('0' as int + d) as char
  }

  predicate AllDigits(s: string) {
    forall i | 0 <= i < |s| :: IsDigit(s[i])
  }

  function Pow10(n: nat): (p: nat)
    ensures p >= 1
  {
    if n == 0 then 1 else 10 * Pow10(n - 1)
  }

  /** The positional value of a digit string, most significant digit first. */
  function DigitsValue(ds: string): nat
    requires AllDigits(ds)
  {
    if |ds| == 0 then 0 else DigitsValue(ds[..|ds| - 1]) * 10 + DigitValue(ds[|ds| - 1])
  }

  /** The digits of a token once its one optional leading `+` is dropped. */
  function Unsigned(s: string): string {
    if |s| > 0 && s[0] == '+' then s[1..] else s
  }

  /** The texts Rust's `u32` parser accepts: an optional `+`, then at least
      one decimal digit and nothing else, of value at most `MaxU32`. */
  predicate IsU32Text(s: string) {
    var ds := Unsigned(s);
    |ds| > 0 && AllDigits(ds) && DigitsValue(ds) <= MaxU32
  }

  /** Reads digits left to right into `acc`, failing on a non-digit or as
      soon as the running value leaves the `u32` range (checked arithmetic). */
  function Accumulate(ds: string, acc: nat): (r: Option<nat>)
    requires acc <= MaxU32
    ensures r.Some? ==> acc <= r.value <= MaxU32
  {
    if |ds| == 0 then Some(acc)
    else if !IsDigit(ds[0]) then None
    else
      var next := acc * 10 + DigitValue(ds[0]);
      if next > MaxU32 then None else Accumulate(ds[1..], next)
  }

  /** Rust's `str::parse::<u32>`. */
  function ParseU32(s: string): (r: Option<nat>)
    ensures r.Some? <==> IsU32Text(s)
    ensures r.Some? ==> r.value <= MaxU32 && r.value == DigitsValue(Unsigned(s))
  {
    var ds := Unsigned(s);
    AccumulateMeaning(ds, 0);
    if |ds| == 0 then None else Accumulate(ds, 0)
  }

  /** `u32::to_string`: the canonical decimal text, no sign, no leading zero. */
  function ToDecimal(n: nat): (s: string)
    ensures |s| >= 1 && AllDigits(s)
    ensures DigitsValue(s) == n
    ensures |s| > 1 ==> s[0] != '0'
  {
    if n < 10 then [DigitChar(n)]
    else
      var s := ToDecimal(n / 10) + [DigitChar(n % 10)];
      assert s[..|s| - 1] == ToDecimal(n / 10);
      s
  }

  /** A digit string split at its first digit. */
  lemma {:induction false} DigitsValueFront(c: char, t: string)
    requires IsDigit(c) && AllDigits(t)
    ensures AllDigits([c] + t)
    ensures DigitsValue([c] + t) == DigitValue(c) * Pow10(|t|) + DigitsValue(t)
  {
    var s := [c] + t;
    if |t| > 0 {
      var t' := t[..|t| - 1];
      var e := DigitValue(t[|t| - 1]);
      assert s[..|s| - 1] == [c] + t';
      DigitsValueFront(c, t');
      assert DigitsValue(s) == DigitsValue([c] + t') * 10 + e;
      assert DigitsValue(t) == DigitsValue(t') * 10 + e;
      Horner(DigitValue(c), Pow10(|t'|), DigitsValue(t'), e);
    }
  }

  /** One Horner step distributed over a leading digit's weight. */
  lemma Horner(d: nat, p: nat, v: nat, e: nat)
    ensures (d * p + v) * 10 + e == d * (10 * p) + (v * 10 + e)
  {
  }

  /** The left-to-right checked accumulation computes the positional value
      and fails exactly when a character is not a digit or the value is too
      large for a `u32`. */
  lemma {:induction false} AccumulateMeaning(ds: string, acc: nat)
    requires acc <= MaxU32
    ensures Accumulate(ds, acc).Some? <==> AllDigits(ds) && acc * Pow10(|ds|) + DigitsValue(ds) <= MaxU32
    ensures Accumulate(ds, acc).Some? ==> Accumulate(ds, acc).value == acc * Pow10(|ds|) + DigitsValue(ds)
  {
    if |ds| == 0 {
    } else if !IsDigit(ds[0]) {
      assert !AllDigits(ds);
    } else {
      var next := acc * 10 + DigitValue(ds[0]);
      var t := ds[1..];
      assert ds == [ds[0]] + t;
      if AllDigits(t) {
        DigitsValueFront(ds[0], t);
        ShiftDigit(acc, DigitValue(ds[0]), Pow10(|t|), DigitsValue(t));
      } else {
        var j :| 0 <= j < |t| && !IsDigit(t[j]);
        assert ds[j + 1] == t[j];
      }
      if next <= MaxU32 {
        AccumulateMeaning(t, next);
      }
    }
  }

  /** Appending digit `d` below `acc` and then `k` more digits of value `v`
      is appending all `k + 1` digits at once; the result is at least the
      intermediate value. */
  lemma ShiftDigit(acc: nat, d: nat, p: nat, v: nat)
    requires p >= 1
    ensures acc * (10 * p) + (d * p + v) == (acc * 10 + d) * p + v
    ensures (acc * 10 + d) * p + v >= acc * 10 + d
  {
    assert acc * (10 * p) == (acc * 10) * p;
    assert (acc * 10 + d) * p == (acc * 10) * p + d * p;
  }

  /** A digit string that does not start with `0` has a positive value. */
  lemma LeadingDigitPositive(p: string)
    requires |p| >= 1 && AllDigits(p) && p[0] != '0'
    ensures DigitsValue(p) >= 1
  {
    assert p == [p[0]] + p[1..];
    DigitsValueFront(p[0], p[1..]);
    WeightedDigit(DigitValue(p[0]), Pow10(|p| - 1), DigitsValue(p[1..]));
  }

  /** A non-zero digit with a positive weight contributes at least one. */
  lemma WeightedDigit(d: nat, w: nat, v: nat)
    requires d >= 1 && w >= 1
    ensures d * w + v >= 1
  {
  }

  /** Division by ten splits off the last digit. */
  lemma DivModTen(a: nat, d: nat)
    requires d < 10
    ensures (a * 10 + d) / 10 == a && (a * 10 + d) % 10 == d
  {
  }

  /** Every value `to_string` renders parses back to itself. */
  lemma ParseToDecimal(n: nat)
    requires n <= MaxU32
    ensures ParseU32(ToDecimal(n)) == Some(n)
  {
    var s := ToDecimal(n);
    assert IsDigit(s[0]);
    assert Unsigned(s) == s;
  }

  /** A canonical digit string (no sign, no leading zero) is exactly the
      rendering of its own value: the other half of the round trip. */
  lemma {:induction false} ToDecimalOfValue(s: string)
    requires |s| >= 1 && AllDigits(s)
    requires |s| > 1 ==> s[0] != '0'
    ensures ToDecimal(DigitsValue(s)) == s
  {
    var p := s[..|s| - 1];
    var c := s[|s| - 1];
    assert DigitChar(DigitValue(c)) == c;
    if |s| > 1 {
      var v, pv := DigitsValue(s), DigitsValue(p);
      assert v == pv * 10 + DigitValue(c);
      LeadingDigitPositive(p);
      DivModTen(pv, DigitValue(c));
      assert ToDecimal(v) == ToDecimal(pv) + [c];
      ToDecimalOfValue(p);
      assert s == p + [c];
    } else {
      assert DigitsValue(s) == DigitValue(c) by {
        assert p == [];
      }
      assert s == [c];
    }
  }
}
