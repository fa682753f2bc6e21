/** `java.math.BigDecimal` as the shop uses it: built from a string, compared with `compareTo`. */
module Money {
  import opened Wrappers
  import opened JavaText

  /** The value `unscaled × 10^(−scale)`; `5.00` is `Decimal(500, 2)`. */
  datatype Decimal = Decimal(unscaled: int, scale: int)

  const Zero: Decimal := Decimal(0, 0)

  function Pow10(n: nat): (r: nat)
    ensures r >= 1
  {
    if n == 0 then 1 else 10 * Pow10(n - 1)
  }

  lemma {:induction false} Pow10Add(a: nat, b: nat)
    ensures Pow10(a + b) == Pow10(a) * Pow10(b)
    decreases a
  {
    if a > 0 {
      Pow10Add(a - 1, b);
    }
  }

  /** The unscaled value of `d` written at the finer scale `s`. */
  function AtScale(d: Decimal, s: int): int
    requires s >= d.scale
  {
    d.unscaled * Pow10(s - d.scale)
  }

  function Max(a: int, b: int): int
  {
    if a < b then b else a
  }

  /** `a.compareTo(b)`: the sign of `a − b`; the scales play no part. */
  function CompareTo(a: Decimal, b: Decimal): (c: int)
    ensures -1 <= c <= 1
  {
    var s := Max(a.scale, b.scale);
    var x := AtScale(a, s);
    var y := AtScale(b, s);
    if x < y then -1 else if x == y then 0 else 1
  }

  /** Swapping the operands flips the comparison. */
  lemma CompareToAntisymmetric(a: Decimal, b: Decimal)
    ensures CompareTo(a, b) == -CompareTo(b, a)
  {
  }

  /** Comparing with zero is the sign of the unscaled value. */
  lemma CompareToZero(d: Decimal)
    ensures CompareTo(d, Zero) == (if d.unscaled < 0 then -1 else if d.unscaled == 0 then 0 else 1)
  {
    var p := Pow10(Max(d.scale, 0) - d.scale);
    assert AtScale(d, Max(d.scale, 0)) == d.unscaled * p;
    assert d.unscaled < 0 ==> d.unscaled * p < 0 by {
      if d.unscaled < 0 {
        assert d.unscaled * p <= d.unscaled * 1;
      }
    }
    assert d.unscaled > 0 ==> d.unscaled * p > 0;
  }

  /** Trailing zeros do not change the value: `5.00` compares equal to `5`. */
  lemma CompareToIgnoresScale(d: Decimal, k: nat)
    ensures CompareTo(Decimal(d.unscaled * Pow10(k), d.scale + k), d) == 0
  {
    var e := Decimal(d.unscaled * Pow10(k), d.scale + k);
    var s := d.scale + k;
    assert Max(e.scale, d.scale) == s;
    assert AtScale(d, s) == d.unscaled * Pow10(k);
  }

  // ---------------------------------------------------------------- new BigDecimal(String)

  /** Where the exponent marker `e`/`E` sits, or the length when there is none. */
  function ExponentAt(s: string): (i: nat)
    ensures i <= |s|
    ensures forall k :: 0 <= k < i ==> s[k] != 'e' && s[k] != 'E'
    ensures i < |s| ==> s[i] == 'e' || s[i] == 'E'
  {
    if s == [] then 0
    else if s[0] == 'e' || s[0] == 'E' then 0
    else 1 + ExponentAt(s[1..])
  }

  /** The digits before the `.` of a significand (all of it when there is no `.`). */
  function IntegerDigits(m: string): string
  {
    if '.' in m then m[..IndexOf(m, '.')] else m
  }

  /** The digits after the `.` of a significand. */
  function FractionDigits(m: string): string
  {
    if '.' in m then m[IndexOf(m, '.') + 1..] else []
  }

  /** An unsigned number: a significand, then optionally `e`/`E` and a signed exponent. */
  function ParseUnsigned(body: string): Option<Decimal>
  {
    var e := ExponentAt(body);
    var mant := body[..e];
    var exp := if e < |body| then ParseInteger(body[e + 1..]) else Some(0);
    var intPart := IntegerDigits(mant);
    var frac := FractionDigits(mant);
    if exp.None? || !AllDigits(intPart) || !AllDigits(frac) || intPart + frac == [] then None
    else
      var scale := |frac| - exp.value;
      if scale < MinInt32 || MaxInt32 < scale then None
      else
        assert AllDigits(intPart + frac);
        Some(Decimal(DigitsValue(intPart + frac), scale))
  }

  /**
   * `new BigDecimal(s)`: an optional sign, digits with at most one `.` and at least one digit,
   * then optionally `e`/`E` and a signed exponent; `None` stands for the
   * `NumberFormatException`, including a scale outside the range of an `int`.
   */
  function ParseBigDecimal(s: string): Option<Decimal>
  {
    if s != [] && (s[0] == '-' || s[0] == '+') then
      match ParseUnsigned(s[1..])
      case None => None
      case Some(d) => Some(if s[0] == '-' then Decimal(-d.unscaled, d.scale) else d)
    else ParseUnsigned(s)
  }

  /** A blank string is never a number, so `new BigDecimal` rejects it. */
  lemma BlankIsNotDecimal(s: string)
    requires IsBlank(s)
    ensures ParseBigDecimal(s).None?
  {
    BlankIffAllTrimmed(s);
    var mant := s[..ExponentAt(s)];
    assert forall k :: 0 <= k < |mant| ==> IsTrimmed(mant[k]);
    assert '.' !in mant;
    assert AllDigits(mant) ==> mant == [] by {
      if mant != [] {
        assert IsTrimmed(mant[0]);
      }
    }
  }

  /** The text of any integer parses back to that integer with scale 0. */
  lemma ParseIntegerText(n: int)
    ensures ParseBigDecimal(IntText(n)) == Some(Decimal(n, 0))
  {
    var m: nat := if n < 0 then -n else n;
    NatTextValue(m);
    var s := IntText(n);
    var body := if n < 0 then s[1..] else s;
    assert body == NatText(m);
    assert ExponentAt(body) == |body| by {
      assert forall k :: 0 <= k < |body| ==> IsDigit(body[k]);
    }
    assert body[..|body|] == body;
    assert '.' !in body by {
      assert forall k :: 0 <= k < |body| ==> IsDigit(body[k]);
    }
    assert IntegerDigits(body) == body && FractionDigits(body) == [];
    assert body + [] == body;
  }
}
