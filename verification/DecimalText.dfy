/**
  Decimal texts of integers: strconv.Itoa and strconv.Atoi on natural numbers, and how the order
  of equally long texts relates to the order of the numbers.
 */
module DecimalText {
  import opened Bytes

  const PLUS: Byte := 43
  const MINUS: Byte := 45
  const DOT: Byte := 46
  const ZERO: Byte := 48
  const NINE: Byte := 57
  const GT: Byte := 62

  predicate IsDigit(b: Byte) { ZERO <= b <= NINE }

  predicate IsDigits(t: Bytes) { forall i :: 0 <= i < |t| ==> IsDigit(t[i]) }

  /** A decimal text as Itoa writes a positive number: no leading zero. */
  predicate Canonical(t: Bytes) { t != [] && IsDigits(t) && t[0] != ZERO }

  /** n / 10, by repeated subtraction: keeps division out of every proof about texts. */
  function Tenth(n: nat): nat { if n < 10 then 0 else 1 + Tenth(n - 10) }

  lemma {:induction false} TenthBounds(n: nat)
    ensures 10 * Tenth(n) <= n < 10 * Tenth(n) + 10
  {
    if n >= 10 { TenthBounds(n - 10); }
  }

  /** strconv.Itoa on a natural number. */
  function Itoa(n: nat): (t: Bytes)
    ensures t != [] && IsDigits(t)
    ensures n > 0 ==> t[0] != ZERO
    ensures n < 10 ==> |t| == 1
    ensures n >= 10 ==> |t| > 1
  {
    TenthBounds(n);
    if n < 10 then [ZERO + n] else Itoa(Tenth(n)) + [ZERO + (n - 10 * Tenth(n))]
  }

  /** ASCII digits, the most significant first. */
  lemma ItoaBytes(n: nat, d: nat)
    requires d < 10
    ensures Itoa(d) == [48 + d]
    ensures n > 0 ==> Itoa(10 * n + d) == Itoa(n) + [48 + d]
  {
    TenthBounds(10 * n + d);
  }

  /** The number a digit text denotes. */
  function Atoi(t: Bytes): (n: int)
  {
    if t == [] then 0 else 10 * Atoi(t[..|t| - 1]) + (t[|t| - 1] - ZERO)
  }

  /** `IsDigits`, read off byte by byte. */
  predicate ReadsAsDigits(t: Bytes) { t == [] || (IsDigit(t[0]) && ReadsAsDigits(t[1..])) }

  lemma {:induction false} DigitsRead(t: Bytes)
    ensures ReadsAsDigits(t) <==> IsDigits(t)
  {
    if t != [] {
      DigitsRead(t[1..]);
      assert forall i :: 0 < i < |t| ==> t[i] == t[1..][i - 1];
    }
  }

  /** strconv.Atoi where the codec wants a length: 0 when the text is not a natural number. */
  function Count(t: Bytes): nat
  {
    if ReadsAsDigits(t) && Atoi(t) >= 0 then Atoi(t) else 0
  }

  lemma CountItoa(n: nat)
    ensures Count(Itoa(n)) == n
  {
    AtoiItoa(n);
    DigitsRead(Itoa(n));
  }

  function Pow(k: nat): (p: nat)
    ensures p >= 1
  {
    if k == 0 then 1 else 10 * Pow(k - 1)
  }

  lemma {:induction false} AtoiItoa(n: nat)
    ensures Atoi(Itoa(n)) == n
  {
    if n >= 10 {
      TenthBounds(n);
      AtoiItoa(Tenth(n));
      assert Itoa(n)[..|Itoa(n)| - 1] == Itoa(Tenth(n));
    }
  }

  lemma {:induction false} AtoiBounds(t: Bytes)
    requires IsDigits(t)
    ensures 0 <= Atoi(t) < Pow(|t|)
    ensures t != [] && t[0] != ZERO ==> Pow(|t| - 1) <= Atoi(t)
  {
    if t != [] { AtoiBounds(t[..|t| - 1]); }
  }

  lemma {:induction false} PowGrows(j: nat, k: nat)
    requires j <= k
    ensures Pow(j) <= Pow(k)
  {
    if j < k { PowGrows(j, k - 1); }
  }

  /** A longer canonical text is a larger number. */
  lemma LongerIsLarger(t: Bytes, u: Bytes)
    requires IsDigits(t) && Canonical(u) && |t| < |u|
    ensures Atoi(t) < Atoi(u)
  {
    AtoiBounds(t);
    AtoiBounds(u);
    PowGrows(|t|, |u| - 1);
  }

  /** Equally long texts are ordered as their numbers are. */
  lemma {:induction false} SameLengthOrder(t: Bytes, u: Bytes)
    requires IsDigits(t) && IsDigits(u) && |t| == |u|
    ensures Atoi(t) < Atoi(u) ==> Below(t, u)
    ensures Atoi(t) == Atoi(u) ==> t == u
  {
    if t != [] {
      var k := |t| - 1;
      var t0, u0 := t[..k], u[..k];
      SameLengthOrder(t0, u0);
      assert t == t0 + [t[k]] && u == u0 + [u[k]];
      if Atoi(t) < Atoi(u) {
        if Atoi(t0) < Atoi(u0) {
          BelowSuffixed(t0, u0, [t[k]], [u[k]]);
        } else {
          BelowPrefixed(t0, [t[k]], [u[k]]);
        }
      }
    }
  }

  lemma CanonicalIsItoa(t: Bytes)
    requires Canonical(t)
    ensures Atoi(t) > 0 && Itoa(Atoi(t)) == t
  {
    AtoiBounds(t);
    var n := Atoi(t);
    AtoiItoa(n);
    if |Itoa(n)| < |t| {
      LongerIsLarger(Itoa(n), t);
    } else if |t| < |Itoa(n)| {
      LongerIsLarger(t, Itoa(n));
    } else {
      SameLengthOrder(t, Itoa(n));
    }
  }

  /** The text of a number is shorter than the number: length prefixes of length prefixes end. */
  lemma {:induction false} ItoaIsShort(n: nat)
    ensures n >= 1 ==> |Itoa(n)| <= n
    ensures n >= 2 ==> |Itoa(n)| < n
  {
    if n >= 10 {
      TenthBounds(n);
      ItoaIsShort(Tenth(n));
    }
  }
}
