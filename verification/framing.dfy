/** The text that identifies the active pattern set: every field framed by its decimal length. */
module Framing {

  function Digit(d: nat): char
    requires d < 10
  {
    ['0', '1', '2', '3', '4', '5', '6', '7', '8', '9'][d]
  }

  function Decimal(n: nat): (s: string)
    ensures s != [] && ':' !in s
  {
    if n < 10 then [Digit(n)] else Decimal(n / 10) + [Digit(n % 10)]
  }

  lemma {:induction false} DecimalIsInjective(m: nat, n: nat)
    requires Decimal(m) == Decimal(n)
    ensures m == n
  {
    var s := Decimal(m);
    assert s[|s| - 1] == Digit(m % 10) == Digit(n % 10);
    if m >= 10 && n >= 10 {
      assert Decimal(m / 10) == s[..|s| - 1] == Decimal(n / 10);
      DecimalIsInjective(m / 10, n / 10);
    }
  }

  /** The number that decimal digits stand for. */
  function ValueOf(s: string): int {
    if s == "" then 0 else 10 * ValueOf(s[..|s| - 1]) + (s[|s| - 1] as int - '0' as int)
  }

  predicate AreDigits(s: string) {
    forall c | c in s :: '0' <= c <= '9'
  }

  /** The decimal text of a number: digits that stand for it, without a leading zero. */
  lemma {:induction false} DecimalIs(n: nat)
    ensures AreDigits(Decimal(n)) && ValueOf(Decimal(n)) == n && (n > 0 ==> Decimal(n)[0] != '0')
    ensures n == 0 ==> Decimal(n) == "0"
  {
    DigitIs(n % 10);
    if n >= 10 {
      DecimalIs(n / 10);
      assert Decimal(n)[..|Decimal(n)| - 1] == Decimal(n / 10);
    } else {
      assert Decimal(n)[..0] == "";
    }
  }

  lemma DigitIs(d: nat)
    requires d < 10
    ensures '0' <= Digit(d) <= '9' && Digit(d) as int - '0' as int == d
  {
  }

  function Frame(value: string): string {
    Decimal(|value|) + ":" + value
  }

  /** The first colon of a text ends what is before it. */
  lemma CutAtColon(a: string, x: string, b: string, y: string)
    requires ':' !in a && ':' !in b && a + (":" + x) == b + (":" + y)
    ensures a == b && x == y
  {
    var text := a + (":" + x);
    assert text[|a|] == ':' && text[|b|] == ':';
    assert forall k | 0 <= k < |a| :: text[k] == a[k] && a[k] in a;
    assert forall k | 0 <= k < |b| :: text[k] == b[k] && b[k] in b;
    assert a == text[..|a|] && b == text[..|b|];
    assert x == text[|a| + 1..] && y == text[|b| + 1..];
  }

  /** A framed field can be cut off any text in one way only. */
  lemma FrameIsPrefixFree(a: string, x: string, b: string, y: string)
    requires Frame(a) + x == Frame(b) + y
    ensures a == b && x == y
  {
    assert Frame(a) + x == Decimal(|a|) + (":" + (a + x));
    assert Frame(b) + y == Decimal(|b|) + (":" + (b + y));
    CutAtColon(Decimal(|a|), a + x, Decimal(|b|), b + y);
    DecimalIsInjective(|a|, |b|);
    assert a == (a + x)[..|a|] && b == (b + y)[..|b|];
    assert x == (a + x)[|a|..] && y == (b + y)[|b|..];
  }

  /** What the hash of the active set covers of one pattern. */
  datatype Plan = Plan(id: string, version: string, detection: string, discovery: string)

  function PlanText(p: Plan): (text: string)
    ensures text != ""
  {
    Frame(p.id) + (Frame(p.version) + (Frame(p.detection) + Frame(p.discovery)))
  }

  function ActiveText(plans: seq<Plan>): string {
    if plans == [] then "" else PlanText(plans[0]) + ActiveText(plans[1..])
  }

  lemma PlanIsPrefixFree(p: Plan, x: string, q: Plan, y: string)
    requires PlanText(p) + x == PlanText(q) + y
    ensures p == q && x == y
  {
    FieldsSplit(Frame(p.id), Frame(p.version), Frame(p.detection), Frame(p.discovery), x);
    FieldsSplit(Frame(q.id), Frame(q.version), Frame(q.detection), Frame(q.discovery), y);
    var p3, q3 := Frame(p.discovery) + x, Frame(q.discovery) + y;
    var p2, q2 := Frame(p.detection) + p3, Frame(q.detection) + q3;
    FrameIsPrefixFree(p.id, Frame(p.version) + p2, q.id, Frame(q.version) + q2);
    FrameIsPrefixFree(p.version, p2, q.version, q2);
    FrameIsPrefixFree(p.detection, p3, q.detection, q3);
    FrameIsPrefixFree(p.discovery, x, q.discovery, y);
  }

  lemma FieldsSplit(a: string, b: string, c: string, d: string, x: string)
    ensures (a + (b + (c + d))) + x == a + (b + (c + (d + x)))
  {
  }

  /** Equal texts come from equal plan sequences: same ids, versions and bodies in the same order. */
  lemma {:induction false} ActiveTextIsInjective(ps: seq<Plan>, qs: seq<Plan>)
    requires ActiveText(ps) == ActiveText(qs)
    ensures ps == qs
  {
    if ps != [] && qs != [] {
      PlanIsPrefixFree(ps[0], ActiveText(ps[1..]), qs[0], ActiveText(qs[1..]));
      ActiveTextIsInjective(ps[1..], qs[1..]);
      assert ps == [ps[0]] + ps[1..] && qs == [qs[0]] + qs[1..];
    }
  }
}
