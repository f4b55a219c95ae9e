/** Small vocabulary shared by every module of the project. */
module Common {
  datatype Option<+T> = None | Some(value: T)

  /** A series of numbers with gaps. */
  type Series = seq<Option<real>>

  function Min(a: int, b: int): int { if a <= b then a else b }

  function Max(a: int, b: int): int { if a >= b then a else b }

  /** `min(max(v, lo), hi)`: when lo > hi the upper bound wins. */
  function Clamp(v: int, lo: int, hi: int): int { Min(Max(v, lo), hi) }

  /** Half-up rounding, the exact form of JavaScript's `Math.round`. */
  function Round(x: real): int { (x + 0.5).Floor }

  const SMALL: string := "abcdefghijklmnopqrstuvwxyz"
  const CAPITALS: string := "ABCDEFGHIJKLMNOPQRSTUVWXYZ"
  const NUMERALS: string := "0123456789"

  lemma SmallAt(i: nat)
    requires i < 26
    ensures SMALL[i] as int == 97 + i
  {
  }

  lemma CapitalAt(i: nat)
    requires i < 26
    ensures CAPITALS[i] as int == 65 + i
  {
  }

  lemma NumeralAt(i: nat)
    requires i < 10
    ensures NUMERALS[i] as int == 48 + i
  {
  }

  /** The ranges of characters that are small letters, capitals and numerals. */
  lemma Alphabets(c: char)
    ensures c in SMALL <==> 'a' <= c <= 'z'
    ensures c in CAPITALS <==> 'A' <= c <= 'Z'
    ensures c in NUMERALS <==> '0' <= c <= '9'
  {
    forall i | 0 <= i < 26 ensures SMALL[i] as int == 97 + i && CAPITALS[i] as int == 65 + i {
      SmallAt(i);
      CapitalAt(i);
    }
    forall i | 0 <= i < 10 ensures NUMERALS[i] as int == 48 + i {
      NumeralAt(i);
    }
    if 'a' <= c <= 'z' {
      assert SMALL[c as int - 97] == c;
    }
    if 'A' <= c <= 'Z' {
      assert CAPITALS[c as int - 65] == c;
    }
    if '0' <= c <= '9' {
      assert NUMERALS[c as int - 48] == c;
    }
  }

  /** The characters Python's `str.splitlines` splits at. */
  predicate IsBreak(c: char) {
    var n := c as int;
    10 <= n <= 13 || 28 <= n <= 30 || n == 0x85 || n == 0x2028 || n == 0x2029
  }

  /** Multiplying by a positive number keeps and reflects order. */
  lemma ScaleBy(p: real, q: real, m: real)
    requires m > 0.0
    ensures p < q <==> p * m < q * m
  {
    if p < q {
      Positive(q - p, m);
    } else {
      Positive(p - q, m);
    }
  }

  lemma Quotient(a: real, d: real)
    requires d != 0.0
    ensures a / d * d == a
  {
  }

  /** A quotient is the number that gives the dividend back. */
  lemma QuotientIs(a: real, d: real, q: real)
    requires d != 0.0 && q * d == a
    ensures a / d == q
  {
    Quotient(a, d);
    assert (a / d - q) * d == 0.0;
  }

  lemma Positive(p: real, q: real)
    requires p >= 0.0 && q >= 0.0
    ensures p * q >= 0.0
    ensures p > 0.0 && q > 0.0 ==> p * q > 0.0
  {
  }
}
