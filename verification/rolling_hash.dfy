/** The rolling hash behind session signatures, in exact 32-bit arithmetic. */
module RollingHash {
  import opened RequestShape

  const Modulus := 0x1_0000_0000

  function Abs(x: int): nat {
    if x < 0 then -x else x
  }

  /** The conversion that the operators `<<` and `&` apply to their operands and results. */
  function ToInt32(x: int): (r: int)
    ensures -0x8000_0000 <= r < 0x8000_0000
    ensures (x - r) % Modulus == 0
  {
    var m := x % Modulus;
    if m < 0x8000_0000 then m else m - Modulus
  }

  predicate Congruent(x: int, y: int) {
    (x - y) % Modulus == 0
  }

  lemma MultipleIsZero(k: int)
    ensures (k * Modulus) % Modulus == 0
  {
  }

  lemma CongruentIff(x: int, y: int)
    ensures Congruent(x, y) <==> ToInt32(x) == ToInt32(y)
  {
    var p, q := (x - ToInt32(x)) / Modulus, (y - ToInt32(y)) / Modulus;
    assert x == p * Modulus + ToInt32(x) && y == q * Modulus + ToInt32(y);
    if Congruent(x, y) {
      var d := (x - y) / Modulus;
      assert ToInt32(x) - ToInt32(y) == (d - p + q) * Modulus;
    } else if ToInt32(x) == ToInt32(y) {
      MultipleIsZero(p - q);
    }
  }

  /** The polynomial in 31 whose coefficients are the code units, the last one constant. */
  function Polynomial(units: seq<Unit>): (p: int)
    ensures p >= 0
  {
    if units == [] then 0 else Polynomial(units[..|units| - 1]) * 31 + units[|units| - 1]
  }

  lemma PolynomialSnoc(units: seq<Unit>, u: Unit)
    ensures Polynomial(units + [u]) == Polynomial(units) * 31 + u
  {
    assert (units + [u])[..|units|] == units;
  }

  lemma Rolls(hash: int, p: int, c: int)
    requires hash == ToInt32(p)
    ensures ToInt32(ToInt32(hash * 32) - hash + c) == ToInt32(p * 31 + c)
  {
    var k := (p - hash) / Modulus;
    var j := (hash * 32 - ToInt32(hash * 32)) / Modulus;
    assert p == hash + k * Modulus && hash * 32 == ToInt32(hash * 32) + j * Modulus;
    assert (ToInt32(hash * 32) - hash + c) - (p * 31 + c) == (-j - 31 * k) * Modulus;
    MultipleIsZero(-j - 31 * k);
    CongruentIff(ToInt32(hash * 32) - hash + c, p * 31 + c);
  }

  function HexDigit(d: nat): char
    requires d < 16
  {
    "0123456789abcdef"[d]
  }

  /** `toString(16)` of a non-negative number. */
  function Hexadecimal(n: nat): (s: string)
    ensures s != "" && (n > 0 ==> s[0] != '0')
  {
    if n < 16 then [HexDigit(n)] else Hexadecimal(n / 16) + [HexDigit(n % 16)]
  }

  lemma {:induction false} HexadecimalIsInjective(m: nat, n: nat)
    requires Hexadecimal(m) == Hexadecimal(n)
    ensures m == n
  {
    var s := Hexadecimal(m);
    LastDigit(m);
    LastDigit(n);
    if m >= 16 && n >= 16 {
      HexadecimalIsInjective(m / 16, n / 16);
    }
  }

  lemma LastDigit(n: nat)
    ensures var s := Hexadecimal(n); Value(s[|s| - 1]) == n % 16
    ensures var s := Hexadecimal(n); |s| > 1 <==> n >= 16
    ensures var s := Hexadecimal(n); n >= 16 ==> s[..|s| - 1] == Hexadecimal(n / 16)
  {
    assert Value(HexDigit(n % 16)) == n % 16;
  }

  function Value(c: char): int {
    if c < 'a' then c as int - '0' as int else c as int - 'a' as int + 10
  }

  function ValueOf(s: string): int {
    if s == "" then 0 else 16 * ValueOf(s[..|s| - 1]) + Value(s[|s| - 1])
  }

  /** The hexadecimal text of a number: lower-case digits that stand for it. */
  lemma {:induction false} HexadecimalIs(n: nat)
    ensures ValueOf(Hexadecimal(n)) == n && forall c | c in Hexadecimal(n) :: '0' <= c <= '9' || 'a' <= c <= 'f'
  {
    LastDigit(n);
    if n >= 16 {
      HexadecimalIs(n / 16);
    } else {
      assert Hexadecimal(n)[..0] == "";
    }
  }

  function HashText(units: seq<Unit>): string {
    Hexadecimal(Abs(ToInt32(Polynomial(units))))
  }

  /** Whole numbers below this are exact in binary64. */
  const EXACT := 0x20_0000_0000_0000

  /** All whole numbers of one turn of the loop are exact, before any conversion to 32 bits. */
  predicate TurnIsExact(hash: int, c: Unit) {
    Abs(hash * 32) < EXACT && Abs(ToInt32(hash * 32) - hash) < EXACT && Abs(ToInt32(hash * 32) - hash + c) < EXACT
  }

  lemma TurnsAreExact(hash: int, c: Unit)
    requires -0x8000_0000 <= hash < 0x8000_0000
    ensures ToInt32(hash) == hash && TurnIsExact(hash, c)
  {
  }

  /**
   `hashString`: the loop computes the signed residue of the polynomial, and no number it meets needs more than 53
   bits.
   */
  method HashString(str: seq<Unit>) returns (text: string)
    ensures text == HashText(str)
    ensures forall i | 0 <= i < |str| :: TurnIsExact(ToInt32(Polynomial(str[..i])), str[i])
  {
    var hash := 0;
    var i := 0;
    while i < |str|
      invariant 0 <= i <= |str| && hash == ToInt32(Polynomial(str[..i]))
    {
      assert str[..i + 1][..i] == str[..i];
      Rolls(hash, Polynomial(str[..i]), str[i]);
      TurnsAreExact(hash, str[i]);
      var shifted := ToInt32(ToInt32(hash) * 32);
      var sum := shifted - hash + str[i];
      hash := ToInt32(sum);
      i := i + 1;
    }
    assert str[..|str|] == str;
    forall i | 0 <= i < |str| ensures TurnIsExact(ToInt32(Polynomial(str[..i])), str[i]) {
      TurnsAreExact(ToInt32(Polynomial(str[..i])), str[i]);
    }
    text := Hexadecimal(Abs(hash));
  }

  /** Two texts share a hash exactly when their polynomials agree, or cancel, modulo 2 to the 32. */
  lemma SameHashIff(s: seq<Unit>, t: seq<Unit>)
    ensures HashText(s) == HashText(t) <==>
            Congruent(Polynomial(s), Polynomial(t)) || Congruent(Polynomial(s), -Polynomial(t))
  {
    var p, q := Polynomial(s), Polynomial(t);
    CongruentIff(p, q);
    CongruentIff(p, -q);
    NegatedResidue(q);
    if HashText(s) == HashText(t) {
      HexadecimalIsInjective(Abs(ToInt32(p)), Abs(ToInt32(q)));
    }
    assert ToInt32(p) == ToInt32(-q) ==> Abs(ToInt32(p)) == Abs(ToInt32(q));
  }

  lemma NegatedResidue(x: int)
    ensures ToInt32(-x) == if ToInt32(x) == -0x8000_0000 then ToInt32(x) else -ToInt32(x)
  {
    var k := (x - ToInt32(x)) / Modulus;
    assert x == ToInt32(x) + k * Modulus;
    var r := if ToInt32(x) == -0x8000_0000 then ToInt32(x) else -ToInt32(x);
    assert -x - r == (if ToInt32(x) == -0x8000_0000 then 1 - k else -k) * Modulus;
    MultipleIsZero(if ToInt32(x) == -0x8000_0000 then 1 - k else -k);
    CongruentIff(-x, r);
  }

  /** The printed number fits 32 bits, and the extreme residue, which has no positive counterpart, does occur. */
  lemma HashRange(s: seq<Unit>)
    ensures Abs(ToInt32(Polynomial(s))) <= 0x8000_0000
    ensures ToInt32(Polynomial([2325, 9, 30, 12, 2])) == -0x8000_0000
  {
    assert Polynomial([2325]) == 2325;
    PolynomialSnoc([2325], 9);
    PolynomialSnoc([2325, 9], 30);
    PolynomialSnoc([2325, 9, 30], 12);
    PolynomialSnoc([2325, 9, 30, 12], 2);
    assert [2325] + [9] == [2325, 9] && [2325, 9] + [30] == [2325, 9, 30];
    assert [2325, 9, 30] + [12] == [2325, 9, 30, 12] && [2325, 9, 30, 12] + [2] == [2325, 9, 30, 12, 2];
  }

  /** Two neighbouring units can always be traded against each other, so collisions occur at every length from two. */
  lemma {:induction false} TradedUnitsCollide(before: seq<Unit>, a: Unit, b: Unit, c: Unit, d: Unit, after: seq<Unit>)
    requires 31 * a + b == 31 * c + d
    ensures HashText(before + [a, b] + after) == HashText(before + [c, d] + after)
    ensures Polynomial(before + [a, b] + after) == Polynomial(before + [c, d] + after)
  {
    if after == [] {
      PolynomialSnoc(before, a);
      PolynomialSnoc(before, c);
      PolynomialSnoc(before + [a], b);
      PolynomialSnoc(before + [c], d);
      assert before + [a, b] + after == before + [a] + [b] && before + [c, d] + after == before + [c] + [d];
    } else {
      var shorter, u := after[..|after| - 1], after[|after| - 1];
      TradedUnitsCollide(before, a, b, c, d, shorter);
      PolynomialSnoc(before + [a, b] + shorter, u);
      PolynomialSnoc(before + [c, d] + shorter, u);
      assert before + [a, b] + after == before + [a, b] + shorter + [u];
      assert before + [c, d] + after == before + [c, d] + shorter + [u];
    }
  }
}
